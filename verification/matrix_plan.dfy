/** The planned runs of a benign matrix (orchestrator.py, `plan_matrix`). */
module MatrixPlans {
  import opened Common
  import opened Corpus

  // Plan identifiers

  function Digit(d: nat): char
    requires d < 10
  {
    '0' + d as char
  }

  function Digits(n: nat): string {
    if n < 10 then [Digit(n)] else Digits(n / 10) + [Digit(n % 10)]
  }

  function Zeros(n: int): string {
    if n <= 0 then "" else ['0'] + Zeros(n - 1)
  }

  /** `f"{n:0{width}d}"` for a count. */
  function Padded(n: nat, width: nat): string {
    Zeros(width - |Digits(n)|) + Digits(n)
  }

  function PlanId(profile: string, index: nat, name: string, occurrence: nat): string {
    profile + ("-" + (Padded(index, 4) + ("-" + (name + "-" + Padded(occurrence, 3)))))
  }

  predicate AllDigits(s: string) {
    forall i :: 0 <= i < |s| ==> '0' <= s[i] <= '9'
  }

  function Value(s: string): nat
    requires AllDigits(s)
  {
    if s == "" then 0 else Value(s[..|s| - 1]) * 10 + (s[|s| - 1] - '0') as nat
  }

  lemma {:induction false} DigitsRead(n: nat)
    ensures AllDigits(Digits(n)) && Value(Digits(n)) == n
  {
    if n >= 10 {
      DigitsRead(n / 10);
      assert Digits(n)[..|Digits(n)| - 1] == Digits(n / 10);
    } else {
      assert Digits(n)[..0] == "";
    }
  }

  lemma {:induction false} LeadingZero(s: string)
    requires AllDigits(s)
    ensures AllDigits(['0'] + s) && Value(['0'] + s) == Value(s)
  {
    var t := ['0'] + s;
    if s == "" {
      assert t[..0] == "";
    } else {
      var init := s[..|s| - 1];
      LeadingZero(init);
      assert t[..|t| - 1] == ['0'] + init;
    }
  }

  lemma {:induction false} LeadingZeros(n: int, s: string)
    requires AllDigits(s)
    ensures AllDigits(Zeros(n) + s) && Value(Zeros(n) + s) == Value(s)
  {
    if n > 0 {
      LeadingZeros(n - 1, s);
      LeadingZero(Zeros(n - 1) + s);
      assert Zeros(n) + s == ['0'] + (Zeros(n - 1) + s);
    } else {
      assert Zeros(n) + s == s;
    }
  }

  lemma PaddedReads(n: nat, width: nat)
    ensures AllDigits(Padded(n, width)) && Value(Padded(n, width)) == n
  {
    DigitsRead(n);
    LeadingZeros(width - |Digits(n)|, Digits(n));
  }

  /** Digits followed by a dash are recovered from the text. */
  lemma DigitsBeforeDash(a: string, b: string, x: string, y: string)
    requires AllDigits(a) && AllDigits(b) && a + ("-" + x) == b + ("-" + y)
    ensures a == b
  {
    var s, t := a + ("-" + x), b + ("-" + y);
    assert s[|a|] == '-' && t[|b|] == '-';
    assert forall i :: 0 <= i < |a| ==> s[i] == a[i];
    assert forall i :: 0 <= i < |b| ==> t[i] == b[i];
    assert s[..|a|] == a && t[..|b|] == b;
  }

  lemma CommonPrefix(p: string, x: string, y: string)
    requires p + x == p + y
    ensures x == y
  {
    assert (p + x)[|p|..] == x && (p + y)[|p|..] == y;
  }

  /** The index alone makes a plan id unique, whatever the workload names contain. */
  lemma PlanIdNamesItsIndex(profile: string, i: nat, j: nat, name: string, other: string, r: nat, s: nat)
    requires PlanId(profile, i, name, r) == PlanId(profile, j, other, s)
    ensures i == j
  {
    var tail, tail' := name + "-" + Padded(r, 3), other + "-" + Padded(s, 3);
    PaddedReads(i, 4);
    PaddedReads(j, 4);
    var a, b := Padded(i, 4), Padded(j, 4);
    CommonPrefix(profile, "-" + (a + ("-" + tail)), "-" + (b + ("-" + tail')));
    CommonPrefix("-", a + ("-" + tail), b + ("-" + tail'));
    DigitsBeforeDash(a, b, tail, tail');
  }

  // The schedule

  predicate IsCollective(name: string) {
    var prefix := "collective_";
    |name| >= |prefix| && name[..|prefix|] == prefix
  }

  function Benign(names: seq<string>): seq<string> {
    if names == [] then []
    else Benign(names[..|names| - 1]) + if IsCollective(names[|names| - 1]) then [] else [names[|names| - 1]]
  }

  function Repeated(names: seq<string>, times: nat): seq<string> {
    if times == 0 then [] else Repeated(names, times - 1) + names
  }

  /** A shuffle of the profile's benign workloads, each repeated. */
  ghost predicate IsSchedule(schedule: seq<string>, names: seq<string>, repetitions: nat) {
    multiset(schedule) == multiset(Repeated(Benign(names), repetitions))
  }

  function Occurrences(schedule: seq<string>, name: string): nat {
    if schedule == [] then 0
    else Occurrences(schedule[..|schedule| - 1], name) + if schedule[|schedule| - 1] == name then 1 else 0
  }

  function PlanAt(profile: string, catalog: string -> Workload, schedule: seq<string>, k: nat): PlannedRun
    requires k < |schedule|
  {
    var name := schedule[k];
    var w := catalog(name);
    var occurrence := Occurrences(schedule[..k], name);
    PlannedRun(
      PlanId(profile, k, name, occurrence), w.family, w.target, Config(w, name, occurrence), w.designation,
      None, w.seed, Some(w.configId))
  }

  function PlansOf(profile: string, catalog: string -> Workload, schedule: seq<string>): (r: seq<PlannedRun>)
    ensures |r| == |schedule| && forall k :: 0 <= k < |r| ==> r[k] == PlanAt(profile, catalog, schedule, k)
  {
    seq(|schedule|, k requires 0 <= k < |schedule| => PlanAt(profile, catalog, schedule, k))
  }

  /** `schedule` stands for the result of the shuffle. */
  method PlanMatrix(profile: string, catalog: string -> Workload, names: seq<string>, repetitions: int,
      schedule: seq<string>)
    returns (r: Result<seq<PlannedRun>, string>)
    requires repetitions >= 1 ==> IsSchedule(schedule, names, repetitions)
    ensures r.Ok? <==> repetitions >= 1
    ensures r.Ok? ==> r.value == PlansOf(profile, catalog, schedule)
  {
    if repetitions < 1 { return Err("matrix repetitions must be at least one"); }
    var occurrences: map<string, nat> := map[];
    var plans: seq<PlannedRun> := [];
    for index := 0 to |schedule|
      invariant |plans| == index
      invariant forall k :: 0 <= k < index ==> plans[k] == PlanAt(profile, catalog, schedule, k)
      invariant Counts(occurrences, schedule, index)
    {
      var name := schedule[index];
      var w := catalog(name);
      var occurrence := if name in occurrences then occurrences[name] else 0;
      CountsStep(occurrences, schedule, index);
      occurrences := occurrences[name := occurrence + 1];
      plans := plans + [PlannedRun(
        PlanId(profile, index, name, occurrence), w.family, w.target, Config(w, name, occurrence), w.designation,
        None, w.seed, Some(w.configId))];
    }
    return Ok(plans);
  }

  /** The counter of names after `n` entries of the schedule. */
  ghost predicate Counts(occurrences: map<string, nat>, schedule: seq<string>, n: nat)
    requires n <= |schedule|
  {
    forall name :: (if name in occurrences then occurrences[name] else 0) == Occurrences(schedule[..n], name)
  }

  lemma CountsStep(occurrences: map<string, nat>, schedule: seq<string>, n: nat)
    requires n < |schedule| && Counts(occurrences, schedule, n)
    ensures var name := schedule[n];
      var occurrence := if name in occurrences then occurrences[name] else 0;
      occurrence == Occurrences(schedule[..n], name) && Counts(occurrences[name := occurrence + 1], schedule, n + 1)
  {
    assert schedule[..n + 1][..n] == schedule[..n];
  }

  lemma {:induction false} OccurrencesCount(schedule: seq<string>, name: string)
    ensures Occurrences(schedule, name) == multiset(schedule)[name]
  {
    if schedule != [] {
      var n := |schedule| - 1;
      OccurrencesCount(schedule[..n], name);
      assert schedule == schedule[..n] + [schedule[n]];
    }
  }

  lemma {:induction false} OccurrencesGrow(schedule: seq<string>, name: string, i: nat, j: nat)
    requires i <= j <= |schedule|
    ensures Occurrences(schedule[..i], name) <= Occurrences(schedule[..j], name)
  {
    if i < j {
      OccurrencesGrow(schedule, name, i, j - 1);
      assert schedule[..j][..j - 1] == schedule[..j - 1];
    }
  }

  lemma RepeatedCount(names: seq<string>, times: nat, name: string)
    ensures multiset(Repeated(names, times))[name] == times * multiset(names)[name]
  {
    if times > 0 { RepeatedCount(names, times - 1, name); }
  }

  /** The slot of one repetition of a workload. */
  ghost predicate IsSlot(schedule: seq<string>, k: int, name: string, repetition: nat) {
    0 <= k < |schedule| && schedule[k] == name && Occurrences(schedule[..k], name) == repetition
  }

  lemma {:induction false} SlotExists(schedule: seq<string>, n: nat, name: string, repetition: nat) returns (k: nat)
    requires n <= |schedule| && repetition < Occurrences(schedule[..n], name)
    ensures k < n && IsSlot(schedule, k, name, repetition)
  {
    assert schedule[..n][..n - 1] == schedule[..n - 1];
    if schedule[n - 1] == name && Occurrences(schedule[..n - 1], name) == repetition {
      k := n - 1;
    } else {
      k := SlotExists(schedule, n - 1, name, repetition);
    }
  }

  lemma SlotIsUnique(schedule: seq<string>, name: string, repetition: nat, i: nat, j: nat)
    requires IsSlot(schedule, i, name, repetition) && IsSlot(schedule, j, name, repetition)
    ensures i == j
  {
    if i < j {
      assert schedule[..i + 1][..i] == schedule[..i];
      OccurrencesGrow(schedule, name, i + 1, j);
    } else if j < i {
      assert schedule[..j + 1][..j] == schedule[..j];
      OccurrencesGrow(schedule, name, j + 1, i);
    }
  }

  /** However the schedule is shuffled, every benign workload of the profile is planned once for each of
      its repetitions 0, 1, ..., and nothing else is planned. */
  lemma EveryRepetitionPlannedOnce(schedule: seq<string>, names: seq<string>, repetitions: nat, name: string,
      repetition: nat)
    requires IsSchedule(schedule, names, repetitions)
    ensures (exists k :: IsSlot(schedule, k, name, repetition)) <==>
      repetition < repetitions * multiset(Benign(names))[name]
    ensures forall i: nat, j: nat :: IsSlot(schedule, i, name, repetition) && IsSlot(schedule, j, name, repetition) ==>
      i == j
  {
    RepeatedCount(Benign(names), repetitions, name);
    OccurrencesCount(schedule, name);
    assert schedule[..|schedule|] == schedule;
    if repetition < Occurrences(schedule, name) {
      var k := SlotExists(schedule, |schedule|, name, repetition);
    }
    if k :| IsSlot(schedule, k, name, repetition) {
      assert schedule[..k + 1][..k] == schedule[..k];
      OccurrencesGrow(schedule, name, k + 1, |schedule|);
    }
    forall i: nat, j: nat | IsSlot(schedule, i, name, repetition) && IsSlot(schedule, j, name, repetition)
      ensures i == j
    {
      SlotIsUnique(schedule, name, repetition, i, j);
    }
  }

  lemma PlanIdsAreUnique(profile: string, catalog: string -> Workload, schedule: seq<string>)
    ensures Distinct(PlanIds(PlansOf(profile, catalog, schedule)))
  {
    var plans := PlansOf(profile, catalog, schedule);
    forall i: nat, j: nat | i < j < |plans|
      ensures plans[i].planId != plans[j].planId
    {
      if plans[i].planId == plans[j].planId {
        PlanIdNamesItsIndex(profile, i, j, schedule[i], schedule[j], plans[i].config.repetition,
          plans[j].config.repetition);
      }
    }
  }

  // What is planned

  lemma CollectiveExactly(name: string)
    ensures IsCollective(name) <==> "collective_" <= name
  {
  }

  lemma CountSnoc(names: seq<string>, last: string, name: string)
    ensures multiset(names + [last])[name] == multiset(names)[name] + if last == name then 1 else 0
  {
  }

  lemma {:induction false} BenignCount(names: seq<string>, name: string)
    ensures multiset(Benign(names))[name] == if IsCollective(name) then 0 else multiset(names)[name]
  {
    if names != [] {
      var n := |names| - 1;
      BenignCount(names[..n], name);
      assert names == names[..n] + [names[n]];
      CountSnoc(names[..n], names[n], name);
      CountSnoc(Benign(names[..n]), names[n], name);
    }
  }

  /** Of every workload that is not a collective one, each repetition has its slot, for every time the profile
      names it; a collective one has none. */
  lemma SlotsExactly(schedule: seq<string>, names: seq<string>, repetitions: nat, name: string, repetition: nat)
    requires IsSchedule(schedule, names, repetitions)
    ensures (exists k :: IsSlot(schedule, k, name, repetition)) <==>
      !("collective_" <= name) && repetition < repetitions * multiset(names)[name]
  {
    EveryRepetitionPlannedOnce(schedule, names, repetitions, name, repetition);
    BenignCount(names, name);
    CollectiveExactly(name);
  }

  lemma PaddedWidth(n: nat, width: nat)
    requires width >= 1
    ensures |Padded(n, width)| >= width
    ensures |Padded(n, width)| > width ==> Padded(n, width)[0] != '0'
  {
    ZerosLength(width - |Digits(n)|);
    LeadingDigit(n);
  }

  lemma {:induction false} ZerosLength(n: int)
    ensures |Zeros(n)| == if n <= 0 then 0 else n
  {
    if n > 0 { ZerosLength(n - 1); }
  }

  lemma {:induction false} LeadingDigit(n: nat)
    ensures |Digits(n)| >= 1 && (n > 0 ==> Digits(n)[0] != '0') && (n == 0 ==> |Digits(n)| == 1)
  {
    if n >= 10 { LeadingDigit(n / 10); }
  }

  /** `n` in decimal digits, filled up to the width. */
  ghost predicate Reads(s: string, n: nat, width: nat) {
    && AllDigits(s) && Value(s) == n && |s| >= width && (|s| > width ==> s[0] != '0')
  }

  ghost predicate NamesSlot(planId: string, profile: string, index: string, name: string, occurrence: string) {
    planId == profile + "-" + index + "-" + name + "-" + occurrence
  }

  lemma Spelled(profile: string, index: string, name: string, occurrence: string)
    ensures NamesSlot(profile + ("-" + (index + ("-" + (name + "-" + occurrence)))), profile, index, name, occurrence)
  {
    var tail := name + "-" + occurrence;
    assert index + ("-" + tail) == index + "-" + name + "-" + occurrence;
    assert "-" + (index + "-" + name + "-" + occurrence) == "-" + index + "-" + name + "-" + occurrence;
  }

  ghost predicate Spells(planId: string, profile: string, k: nat, name: string, occurrence: nat) {
    exists index, count ::
      NamesSlot(planId, profile, index, name, count) && Reads(index, k, 4) && Reads(count, occurrence, 3)
  }

  lemma PaddedIsRead(n: nat, width: nat)
    requires width >= 1
    ensures Reads(Padded(n, width), n, width)
  {
    PaddedReads(n, width);
    PaddedWidth(n, width);
  }

  lemma PlanIdSpells(profile: string, k: nat, name: string, occurrence: nat)
    ensures Spells(PlanId(profile, k, name, occurrence), profile, k, name, occurrence)
  {
    PaddedIsRead(k, 4);
    PaddedIsRead(occurrence, 3);
    Spelled(profile, Padded(k, 4), name, Padded(occurrence, 3));
  }

  /** Every slot is planned with the registered settings of its workload, as the repetition it is, not yet
      filled, under an id that spells profile, position, workload and repetition. */
  lemma PlannedExactly(profile: string, catalog: string -> Workload, schedule: seq<string>, k: nat, repetition: nat)
    requires k < |schedule| && IsSlot(schedule, k, schedule[k], repetition)
    ensures var plan, w := PlansOf(profile, catalog, schedule)[k], catalog(schedule[k]);
      && plan.family == w.family && plan.target == w.target && plan.designation == w.designation
      && plan.seed == w.seed && plan.configId == Some(w.configId) && plan.acceptedRunId == None
      && plan.config.workload == w && plan.config.workloadName == schedule[k] && plan.config.repetition == repetition
      && Spells(plan.planId, profile, k, schedule[k], repetition)
  {
    PlanIdSpells(profile, k, schedule[k], repetition);
  }

  /** A workload whose registered settings pass the slot checks. */
  predicate Registered(w: Workload) {
    w.family != "" && w.target != "" && w.designation in {"benign", "adversarial", "calibration"} && w.seed >= 0
      && w.configId != ""
  }

  function PlanManifest(context: CorpusManifest, plans: seq<PlannedRun>): CorpusManifest {
    context.(plannedRuns := plans, acceptedRunIds := AssignedIds(plans), seed := 20260730, calibration := None)
  }

  ghost predicate SoundContext(context: CorpusManifest) {
    && context.schemaVersion == SCHEMA_VERSION && context.kind == CORPUS_KIND
    && "" !in {context.corpusId, context.collectionId, context.sessionId, context.nodeId, context.sourceCommit}
    && (context.archiveSha256.Some? ==> IsHexDigest(context.archiveSha256.value))
  }

  lemma {:induction false} NothingAssigned(plans: seq<PlannedRun>)
    requires forall k :: 0 <= k < |plans| ==> plans[k].acceptedRunId.None?
    ensures AssignedIds(plans) == [] && DeclaredIds(plans) == []
  {
    if plans != [] { NothingAssigned(plans[..|plans| - 1]); }
  }

  /** A matrix plan over registered workloads is a valid corpus manifest, for every shuffle. */
  lemma PlanIsValid(context: CorpusManifest, profile: string, catalog: string -> Workload, schedule: seq<string>)
    requires SoundContext(context) && schedule != []
    requires forall k :: 0 <= k < |schedule| ==> Registered(catalog(schedule[k]))
    ensures Validate(PlanManifest(context, PlansOf(profile, catalog, schedule))).None?
  {
    var plans := PlansOf(profile, catalog, schedule);
    var m := PlanManifest(context, plans);
    PlanIdsAreUnique(profile, catalog, schedule);
    NoRepeatsMeansDistinct(PlanIds(plans));
    NothingAssigned(plans);
    forall k: nat | k < |plans|
      ensures PlannedRunProblem(plans[k]).None?
    {
      assert Registered(catalog(schedule[k]));
      assert plans[k].planId != "" by { assert |plans[k].planId| >= |"-"|; }
    }
    assert ValidateRuns(m).None?;
  }
}
