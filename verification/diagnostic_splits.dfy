/** The diagnostic holdouts of one workload family or configuration (evaluation/splits.py). */
module DiagnosticSplits {
  import opened Common
  import opened Splits
  import opened SplitPlans

  datatype HoldoutField = ByFamily | ByConfiguration

  datatype HoldoutError = IllegalFractions | MissingValue | ValueAbsent | ValueEverywhere | NotDiagnostic

  function FieldOf(field: HoldoutField, g: RunGroup): string {
    match field
    case ByFamily => g.family
    case ByConfiguration => g.config
  }

  function HeldOut(groups: Groups, field: HoldoutField, value: string): set<RunId> {
    set r | r in groups && FieldOf(field, groups[r]) == value
  }

  function Remaining(groups: Groups, field: HoldoutField, value: string): Groups {
    map r | r in groups && FieldOf(field, groups[r]) != value :: groups[r]
  }

  function ValidationCount(n: nat): nat {
    if n >= 2 then 1 else 0
  }

  /** One class of the remaining runs: one run to validate if there are two, the others to train. */
  ghost predicate Cut(a: Assignments, runs: set<RunId>) {
    && runs <= a.Keys
    && PartIn(a, runs, Test) == {}
    && |PartIn(a, runs, Validation)| == ValidationCount(|runs|)
  }

  method CutClass(a: Assignments, members: seq<RunId>) returns (a': Assignments)
    requires Distinct(members)
    ensures forall r :: r in a' <==> r in a || r in members
    ensures forall r :: r in a && r !in members ==> a'[r] == a[r]
    ensures Cut(a', Members(members))
  {
    var runs := Shuffle(members);
    DistinctIsMultisetProperty(members, runs);
    a' := a;
    for i := 0 to |runs|
      invariant forall r :: r in a' <==> r in a || r in runs[..i]
      invariant forall r :: r in a && r !in runs[..i] ==> a'[r] == a[r]
      invariant forall k :: 0 <= k < i ==> a'[runs[k]] == if k < ValidationCount(|runs|) then Validation else Train
    {
      assert runs[..i + 1] == runs[..i] + [runs[i]];
      a' := a'[runs[i] := if i < ValidationCount(|runs|) then Validation else Train];
    }
    assert runs[..|runs|] == runs;
    CutRuns(a', runs);
    assert Members(runs) == Members(members);
  }

  lemma CutRuns(a: Assignments, runs: seq<RunId>)
    requires Distinct(runs) && forall r :: r in runs ==> r in a
    requires forall k :: 0 <= k < |runs| ==> a[runs[k]] == if k < ValidationCount(|runs|) then Validation else Train
    ensures Cut(a, Members(runs))
  {
    SetOfDistinct(runs);
    PartIsSlice(a, runs, Validation, 0, ValidationCount(|runs|));
    PartIsSlice(a, runs, Test, 0, 0);
  }

  lemma NotTested(a: Assignments, runs: set<RunId>, r: RunId)
    requires Cut(a, runs) && r in runs
    ensures r in a && a[r] != Test
  {
    assert r in a;
    assert a[r] == Test ==> r in PartIn(a, runs, Test);
  }

  lemma CutStays(a: Assignments, a': Assignments, runs: set<RunId>)
    requires Cut(a, runs) && forall r :: r in runs ==> r in a' && a'[r] == a[r]
    ensures Cut(a', runs)
  {
    assert PartIn(a', runs, Test) == PartIn(a, runs, Test);
    assert PartIn(a', runs, Validation) == PartIn(a, runs, Validation);
  }

  /** Runs outside `rest` are all assigned: the held-out ones to test, each other class cut. */
  ghost predicate Progress(rows: Groups, held: set<RunId>, strata: map<Stratum, seq<RunId>>, a: Assignments,
      rest: set<Stratum>) {
    && rest <= strata.Keys
    && (forall r :: r in a <==> r in held || (r in rows && StratumOf(rows[r], {}) !in rest))
    && (forall r :: r in held ==> r in a && a[r] == Test)
    && (forall k :: k in strata && k !in rest ==> Cut(a, RunsIn(rows, {}, k)))
  }

  lemma ProgressStep(rows: Groups, held: set<RunId>, strata: map<Stratum, seq<RunId>>, a: Assignments, a': Assignments,
                     rest: set<Stratum>, key: Stratum)
    requires Covers(rows, {}, strata) && rows.Keys !! held && Progress(rows, held, strata, a, rest) && key in rest
    requires forall r :: r in a' <==> r in a || r in strata[key]
    requires forall r :: r in a && r !in strata[key] ==> a'[r] == a[r]
    requires Cut(a', Members(strata[key]))
    ensures Progress(rows, held, strata, a', rest - {key})
  {
    StratumMembers(rows, {}, strata, key);
    forall k | k in strata && k !in rest - {key}
      ensures Cut(a', RunsIn(rows, {}, k))
    {
      if k != key { CutStays(a, a', RunsIn(rows, {}, k)); }
    }
  }

  /** Test is exactly the held-out value; every other class keeps a run to train on and gives up one
      to validation if it has two. */
  ghost predicate IsDiagnosticSplit(groups: Groups, field: HoldoutField, value: string, a: Assignments) {
    && a.Keys == groups.Keys
    && (forall r :: r in groups ==> (a[r] == Test <==> FieldOf(field, groups[r]) == value))
    && forall r :: r in groups && FieldOf(field, groups[r]) != value ==>
         Cut(a, RunsIn(Remaining(groups, field, value), {}, Class(groups[r].target)))
  }

  lemma AllCut(groups: Groups, field: HoldoutField, value: string, strata: map<Stratum, seq<RunId>>, a: Assignments)
    requires Covers(Remaining(groups, field, value), {}, strata)
    requires Progress(Remaining(groups, field, value), HeldOut(groups, field, value), strata, a, {})
    ensures IsDiagnosticSplit(groups, field, value, a)
  {
    var rows := Remaining(groups, field, value);
    forall r | r in rows
      ensures r in a && a[r] != Test && Cut(a, RunsIn(rows, {}, Class(rows[r].target)))
    {
      var runs := RunsIn(rows, {}, Class(rows[r].target));
      assert StratumOf(rows[r], {}) in strata && r in runs;
      NotTested(a, runs, r);
    }
  }

  /** `_diagnostic_holdout_assignments`: refused exactly when the value is on no run, or on all. */
  method DiagnosticAssignments(groups: Groups, field: HoldoutField, value: string)
    returns (r: Result<Assignments, HoldoutError>)
    ensures r == Err(ValueAbsent) <==> HeldOut(groups, field, value) == {}
    ensures r == Err(ValueEverywhere) <==>
      HeldOut(groups, field, value) != {} && Remaining(groups, field, value) == map[]
    ensures r.Err? ==> r.error in {ValueAbsent, ValueEverywhere}
    ensures r.Ok? ==> IsDiagnosticSplit(groups, field, value, r.value)
  {
    var held, rows := HeldOut(groups, field, value), Remaining(groups, field, value);
    if held == {} { return Err(ValueAbsent); }
    if rows == map[] { return Err(ValueEverywhere); }
    var strata := CollectStrata(rows, {});
    var a: Assignments := map run | run in held :: Test;
    var rest := strata.Keys;
    while rest != {}
      invariant Progress(rows, held, strata, a, rest)
      decreases |rest|
    {
      var key :| key in rest;
      var a' := CutClass(a, strata[key]);
      ProgressStep(rows, held, strata, a, a', rest, key);
      a, rest := a', rest - {key};
    }
    AllCut(groups, field, value, strata, a);
    return Ok(a);
  }

  /** The checks of `_finalize` on a diagnostic plan. */
  predicate DiagnosticFinalizes(groups: Groups, a: Assignments) {
    a.Keys == groups.Keys && Train in a.Values && Test in a.Values
  }

  lemma ClassTrains(a: Assignments, runs: set<RunId>)
    requires Cut(a, runs) && runs != {}
    ensures Train in a.Values
  {
    var validating := PartIn(a, runs, Validation);
    assert runs == validating + (runs - validating);
    assert |runs| >= 1 && |runs - validating| == |runs| - |validating| >= 1;
    var r :| r in runs - validating;
    NotTested(a, runs, r);
    assert a[r] == Train;
  }

  /** Every class that is left keeps a run to train on, so a diagnostic split never fails its final
      checks. */
  lemma DiagnosticSplitFinalizes(groups: Groups, field: HoldoutField, value: string, a: Assignments)
    requires IsDiagnosticSplit(groups, field, value, a)
    requires Divides(groups, field, value)
    ensures DiagnosticFinalizes(groups, a)
  {
    var rows := Remaining(groups, field, value);
    var held :| held in HeldOut(groups, field, value);
    assert a[held] in a.Values;
    var r :| r in rows;
    var runs := RunsIn(rows, {}, Class(groups[r].target));
    assert r in runs;
    ClassTrains(a, runs);
  }

  /** The run belongs to the held-out family or configuration. */
  predicate Has(field: HoldoutField, g: RunGroup, value: string) {
    (field.ByFamily? ==> g.family == value) && (field.ByConfiguration? ==> g.config == value)
  }

  /** The runs of a class that are not held out. */
  function LeftOf(groups: Groups, field: HoldoutField, value: string, target: string): set<RunId> {
    set r | r in groups && groups[r].target == target && !Has(field, groups[r], value)
  }

  /** One of the runs validates if there are two. */
  predicate OneValidates(a: Assignments, runs: set<RunId>) {
    |set r | r in runs && r in a && a[r] == Validation| == if |runs| >= 2 then 1 else 0
  }

  /** Every run is placed, and exactly the held-out ones are tested. */
  ghost predicate TestsHeldOut(groups: Groups, field: HoldoutField, value: string, a: Assignments) {
    a.Keys == groups.Keys && forall r :: r in groups && r in a ==> (a[r] == Test <==> Has(field, groups[r], value))
  }

  lemma LeftIsStratum(groups: Groups, field: HoldoutField, value: string, target: string)
    ensures LeftOf(groups, field, value, target) == RunsIn(Remaining(groups, field, value), {}, Class(target))
  {
  }

  lemma CutExactly(a: Assignments, runs: set<RunId>)
    requires runs <= a.Keys && forall r :: r in runs ==> a[r] != Test
    ensures Cut(a, runs) <==> OneValidates(a, runs)
  {
    assert PartIn(a, runs, Validation) == set x | x in runs && x in a && a[x] == Validation;
  }

  lemma ClassCutExactly(groups: Groups, field: HoldoutField, value: string, a: Assignments, target: string)
    requires TestsHeldOut(groups, field, value, a)
    ensures Cut(a, RunsIn(Remaining(groups, field, value), {}, Class(target)))
            <==> OneValidates(a, LeftOf(groups, field, value, target))
  {
    LeftIsStratum(groups, field, value, target);
    CutExactly(a, LeftOf(groups, field, value, target));
  }

  lemma HasExactly(field: HoldoutField, g: RunGroup, value: string)
    ensures Has(field, g, value) <==> FieldOf(field, g) == value
  {
  }

  /** A diagnostic split places every run, tests exactly the held-out ones, and has one run of each class
      that is left validate, if there are two, and the others train. */
  lemma DiagnosticExactly(groups: Groups, field: HoldoutField, value: string, a: Assignments)
    ensures IsDiagnosticSplit(groups, field, value, a) <==>
      && TestsHeldOut(groups, field, value, a)
      && forall r :: r in groups && !Has(field, groups[r], value) ==>
           OneValidates(a, LeftOf(groups, field, value, groups[r].target))
  {
    forall g
      ensures Has(field, g, value) <==> FieldOf(field, g) == value
    {
      HasExactly(field, g, value);
    }
    if TestsHeldOut(groups, field, value, a) {
      forall target
        ensures Cut(a, RunsIn(Remaining(groups, field, value), {}, Class(target)))
                <==> OneValidates(a, LeftOf(groups, field, value, target))
      {
        ClassCutExactly(groups, field, value, a, target);
      }
    }
  }

  /** Some runs have the value and some do not. */
  predicate Divides(groups: Groups, field: HoldoutField, value: string) {
    HeldOut(groups, field, value) != {} && Remaining(groups, field, value) != map[]
  }

  /** `make_split_plan` in its two diagnostic modes. */
  method MakeDiagnosticPlan(groups: Groups, field: HoldoutField, value: Option<string>, test: real, validation: real)
    returns (r: Result<Assignments, HoldoutError>)
    ensures r == Err(IllegalFractions) <==> !LegalFractions(test, validation)
    ensures r == Err(MissingValue) <==> LegalFractions(test, validation) && value.None?
    ensures r != Err(NotDiagnostic)
    ensures r.Ok? <==> LegalFractions(test, validation) && value.Some? && Divides(groups, field, value.value)
    ensures r.Ok? ==> IsDiagnosticSplit(groups, field, value.value, r.value) && DiagnosticFinalizes(groups, r.value)
  {
    if !LegalFractions(test, validation) { return Err(IllegalFractions); }
    if value.None? { return Err(MissingValue); }
    r := DiagnosticAssignments(groups, field, value.value);
    if r.Ok? {
      DiagnosticSplitFinalizes(groups, field, value.value, r.value);
      if !DiagnosticFinalizes(groups, r.value) { return Err(NotDiagnostic); }
    }
  }
}
