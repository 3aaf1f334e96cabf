/** From feature rows to a validated split plan (evaluation/splits.py). */
module SplitPlans {
  import opened Common
  import opened Splits
  import opened Stratification

  // ----- grouping feature rows by run

  datatype FeatureRow = FeatureRow(runId: RunId, ambiguous: bool, group: RunGroup)

  predicate Complete(row: FeatureRow) {
    row.runId != "" && !row.ambiguous && row.group.session != "" && row.group.target != ""
    && row.group.family != "" && row.group.config != ""
  }

  ghost predicate Consistent(rows: seq<FeatureRow>) {
    forall i, j :: 0 <= i < |rows| && 0 <= j < |rows| && rows[i].runId == rows[j].runId ==>
      rows[i].group == rows[j].group
  }

  datatype GroupError = IncompleteRow(i: nat) | SpansGroups(i: nat) | NoRows

  /** `_run_groups`: a run has one group, or the collection is refused. */
  method CollectRunGroups(rows: seq<FeatureRow>) returns (r: Result<Groups, GroupError>)
    ensures r.Ok? <==> rows != [] && (forall i :: 0 <= i < |rows| ==> Complete(rows[i])) && Consistent(rows)
    ensures r.Ok? ==> r.value != map[] && forall run :: run in r.value <==>
      exists i :: 0 <= i < |rows| && rows[i].runId == run
    ensures r.Ok? ==> forall i :: 0 <= i < |rows| ==>
      rows[i].runId in r.value && r.value[rows[i].runId] == rows[i].group
  {
    var groups: Groups := map[];
    for i := 0 to |rows|
      invariant forall k :: 0 <= k < i ==>
        Complete(rows[k]) && rows[k].runId in groups && groups[rows[k].runId] == rows[k].group
      invariant forall run :: run in groups ==> exists k :: 0 <= k < i && rows[k].runId == run
      invariant i > 0 ==> groups != map[]
    {
      var row := rows[i];
      if !Complete(row) { return Err(IncompleteRow(i)); }
      if row.runId in groups && groups[row.runId] != row.group {
        var k :| 0 <= k < i && rows[k].runId == row.runId;
        return Err(SpansGroups(i));
      }
      groups := groups[row.runId := row.group];
    }
    if groups == map[] { return Err(NoRows); }
    return Ok(groups);
  }

  // ----- what a plan has to provide

  function ExpectedClasses(groups: Groups): set<string> {
    set r | r in groups :: groups[r].target
  }

  function ClassesIn(groups: Groups, a: Assignments, split: Split): set<string> {
    set r | r in groups && r in a && a[r] == split :: groups[r].target
  }

  function FamiliesIn(groups: Groups, a: Assignments, split: Split): set<string> {
    set r | r in groups && r in a && a[r] == split :: groups[r].family
  }

  predicate CoversClasses(groups: Groups, a: Assignments) {
    forall split :: split in SPLITS ==> ClassesIn(groups, a, split) == ExpectedClasses(groups)
  }

  predicate CoversFamilies(groups: Groups, a: Assignments, required: set<string>) {
    forall split :: split in SPLITS ==> required <= FamiliesIn(groups, a, split)
  }

  /** The checks of `_finalize` on a primary (non-diagnostic) plan, in order. */
  function Finalize(groups: Groups, a: Assignments, required: set<string>): Option<SplitError> {
    if a.Keys != groups.Keys then Some(NotCovering)
    else if exists split :: split in SPLITS && split !in a.Values then Some(EmptyPartition)
    else if |ExpectedClasses(groups)| < 2 then Some(TooFewClasses)
    else if !CoversClasses(groups, a) then Some(MissingClass)
    else if !CoversFamilies(groups, a, required) then Some(MissingFamily)
    else None
  }

  // ----- session holdout

  function Sessions(groups: Groups): set<string> {
    set r | r in groups :: groups[r].session
  }

  function SessionSplit(groups: Groups, test: string, validation: string): Assignments {
    map r | r in groups ::
      if groups[r].session == test then Test else if groups[r].session == validation then Validation else Train
  }

  /** Every class and every required family is present in all three partitions. */
  predicate ValidHoldout(groups: Groups, required: set<string>, a: Assignments) {
    CoversClasses(groups, a) && CoversFamilies(groups, a, required)
  }

  predicate IsHoldout(groups: Groups, required: set<string>, test: string, validation: string) {
    test in Sessions(groups) && validation in Sessions(groups) && test != validation
    && ValidHoldout(groups, required, SessionSplit(groups, test, validation))
  }

  ghost predicate HoldoutExists(groups: Groups, required: set<string>) {
    exists test, validation :: IsHoldout(groups, required, test, validation)
  }

  /** Two held-out sessions leave something to train on only if there is a third one. */
  lemma HoldoutNeedsThreeSessions(groups: Groups, required: set<string>, test: string, validation: string)
    requires groups != map[] && IsHoldout(groups, required, test, validation)
    ensures |Sessions(groups)| >= 3
  {
    var a := SessionSplit(groups, test, validation);
    var r :| r in groups;
    assert groups[r].target in ExpectedClasses(groups);
    assert Train in SPLITS && groups[r].target in ClassesIn(groups, a, Train);
    var t :| t in groups && t in a && a[t] == Train && groups[t].target == groups[r].target;
    var third := groups[t].session;
    assert third in Sessions(groups) && third != test && third != validation;
    assert {test, validation, third} <= Sessions(groups);
    SubsetSize({test, validation, third}, Sessions(groups));
    assert |{test, validation, third}| == 3;
  }

  method ListOf(s: set<string>) returns (r: seq<string>)
    ensures forall x :: x in r <==> x in s
  {
    var rest := s;
    r := [];
    while rest != {}
      invariant rest <= s && forall x :: x in r <==> x in s && x !in rest
      decreases |rest|
    {
      var x :| x in rest;
      r, rest := r + [x], rest - {x};
    }
  }

  /** All ordered pairs of distinct elements. */
  method Pairs(sessions: seq<string>) returns (pairs: seq<(string, string)>)
    ensures forall t, v :: (t, v) in pairs <==> t in sessions && v in sessions && t != v
  {
    pairs := [];
    for i := 0 to |sessions|
      invariant forall t, v :: (t, v) in pairs <==> t in sessions[..i] && v in sessions && t != v
    {
      ghost var outer := pairs;
      for j := 0 to |sessions|
        invariant forall t, v :: (t, v) in pairs <==>
          (t, v) in outer || (t == sessions[i] && v in sessions[..j] && t != v)
      {
        assert sessions[..j + 1] == sessions[..j] + [sessions[j]];
        if sessions[i] != sessions[j] { pairs := pairs + [(sessions[i], sessions[j])]; }
      }
      assert sessions[..|sessions|] == sessions;
      assert sessions[..i + 1] == sessions[..i] + [sessions[i]];
    }
    assert sessions[..|sessions|] == sessions;
  }

  method CheckHoldout(groups: Groups, required: set<string>, a: Assignments) returns (valid: bool)
    ensures valid == ValidHoldout(groups, required, a)
  {
    valid := true;
    var order := [Train, Validation, Test];
    for k := 0 to 3
      invariant valid
      invariant forall i :: 0 <= i < k ==>
        ClassesIn(groups, a, order[i]) == ExpectedClasses(groups) && required <= FamiliesIn(groups, a, order[i])
    {
      if ClassesIn(groups, a, order[k]) != ExpectedClasses(groups) || !(required <= FamiliesIn(groups, a, order[k])) {
        assert order[k] in SPLITS;
        return false;
      }
    }
    forall split | split in SPLITS
      ensures ClassesIn(groups, a, split) == ExpectedClasses(groups) && required <= FamiliesIn(groups, a, split)
    {
      assert split == order[0] || split == order[1] || split == order[2];
    }
  }

  /** `_session_assignments`: the search is complete.  It returns an assignment exactly when some pair
      of distinct sessions is a holdout, whatever the shuffle, and then that of such a pair. */
  method SessionAssignments(groups: Groups, required: set<string>) returns (r: Option<Assignments>)
    requires groups != map[]
    ensures r.Some? <==> HoldoutExists(groups, required)
    ensures r.Some? ==> exists t, v :: IsHoldout(groups, required, t, v) && r.value == SessionSplit(groups, t, v)
  {
    if |Sessions(groups)| < 3 {
      if t, v :| IsHoldout(groups, required, t, v) { HoldoutNeedsThreeSessions(groups, required, t, v); }
      return None;
    }
    var sessions := ListOf(Sessions(groups));
    var pairs := Pairs(sessions);
    var candidates := Shuffle(pairs);
    for i := 0 to |candidates|
      invariant forall k :: 0 <= k < i ==> !IsHoldout(groups, required, candidates[k].0, candidates[k].1)
    {
      var (test, validation) := candidates[i];
      var a := SessionSplit(groups, test, validation);
      var valid := CheckHoldout(groups, required, a);
      SameElements(pairs, candidates, candidates[i]);
      if valid {
        assert IsHoldout(groups, required, test, validation);
        return Some(a);
      }
    }
    forall t, v
      ensures !IsHoldout(groups, required, t, v)
    {
      SameElements(pairs, candidates, (t, v));
    }
    return None;
  }

  lemma SameElements<T>(s: seq<T>, t: seq<T>, x: T)
    requires multiset(s) == multiset(t)
    ensures x in s <==> x in t
  {
    assert x in s <==> x in multiset(s);
    assert x in t <==> x in multiset(t);
  }

  // ----- the plan

  datatype Mode = Auto | SessionHoldout | StratifiedWholeRun

  datatype Strategy = IndependentSessionHoldout | ClassStratified

  datatype Plan = Plan(assignments: Assignments, strategy: Strategy)

  ghost predicate SessionsWhole(groups: Groups, a: Assignments) {
    forall r1, r2 :: r1 in groups && r2 in groups && r1 in a && r2 in a && groups[r1].session == groups[r2].session ==>
      a[r1] == a[r2]
  }

  /** What every primary plan guarantees: all runs placed once, every class and every required family
      in all three partitions. */
  ghost predicate SoundPlan(groups: Groups, required: set<string>, a: Assignments) {
    a.Keys == groups.Keys && CoversClasses(groups, a) && CoversFamilies(groups, a, required)
  }

  /** The required families that occur, each with a single class. */
  ghost predicate PureFamilies(groups: Groups, required: set<string>) {
    && (forall f :: f in required ==> exists r :: r in groups && groups[r].family == f)
    && (forall r1, r2 ::
          (r1 in groups && r2 in groups && groups[r1].family == groups[r2].family && groups[r1].family in required) ==>
            groups[r1].target == groups[r2].target)
  }

  /** A run of the same stratum as `run` in the given part. */
  lemma StratumMember(groups: Groups, required: set<string>, a: Assignments, test: real, validation: real,
                      run: RunId, split: Split) returns (r: RunId)
    requires Stratified(groups, required, a, test, validation) && run in groups
    ensures r in groups && r in a && a[r] == split
    ensures StratumOf(groups[r], required) == StratumOf(groups[run], required)
  {
    var runs := RunsIn(groups, required, StratumOf(groups[run], required));
    ProportionedIsRepresented(a, runs, test, validation);
    assert split in SPLITS;
    r :| r in runs && r in a && a[r] == split;
  }

  /** A spread stratum brings the class (and the required family) of any of its runs into a split. */
  lemma StratumReaches(groups: Groups, required: set<string>, a: Assignments, test: real, validation: real,
                       run: RunId, split: Split)
    requires Stratified(groups, required, a, test, validation) && PureFamilies(groups, required) && run in groups
    ensures groups[run].target in ClassesIn(groups, a, split)
    ensures groups[run].family in required ==> groups[run].family in FamiliesIn(groups, a, split)
  {
    var r := StratumMember(groups, required, a, test, validation, run, split);
    assert groups[r].target == groups[run].target;
  }

  lemma SplitHasClasses(groups: Groups, required: set<string>, a: Assignments, test: real, validation: real,
      split: Split)
    requires Stratified(groups, required, a, test, validation) && PureFamilies(groups, required)
    ensures ClassesIn(groups, a, split) == ExpectedClasses(groups)
  {
    forall c | c in ExpectedClasses(groups)
      ensures c in ClassesIn(groups, a, split)
    {
      var run :| run in groups && groups[run].target == c;
      StratumReaches(groups, required, a, test, validation, run, split);
    }
  }

  lemma SplitHasFamilies(groups: Groups, required: set<string>, a: Assignments, test: real, validation: real,
      split: Split)
    requires Stratified(groups, required, a, test, validation) && PureFamilies(groups, required)
    ensures required <= FamiliesIn(groups, a, split)
  {
    forall f | f in required
      ensures f in FamiliesIn(groups, a, split)
    {
      var run :| run in groups && groups[run].family == f;
      StratumReaches(groups, required, a, test, validation, run, split);
    }
  }

  lemma StratifiedCovers(groups: Groups, required: set<string>, a: Assignments, test: real, validation: real)
    requires Stratified(groups, required, a, test, validation) && PureFamilies(groups, required)
    ensures SoundPlan(groups, required, a)
  {
    forall split | split in SPLITS
      ensures ClassesIn(groups, a, split) == ExpectedClasses(groups)
      ensures required <= FamiliesIn(groups, a, split)
    {
      SplitHasClasses(groups, required, a, test, validation, split);
      SplitHasFamilies(groups, required, a, test, validation, split);
    }
  }

  lemma SoundPlanPasses(groups: Groups, required: set<string>, a: Assignments)
    requires groups != map[] && SoundPlan(groups, required, a)
    ensures Finalize(groups, a, required) == if |ExpectedClasses(groups)| < 2 then Some(TooFewClasses) else None
  {
    var run :| run in groups;
    assert groups[run].target in ExpectedClasses(groups);
    forall split | split in SPLITS
      ensures split in a.Values
    {
      assert groups[run].target in ClassesIn(groups, a, split);
      var r :| r in groups && r in a && a[r] == split;
      assert a[r] in a.Values;
    }
  }

  /** Stratified allocation always passes the final checks when every required family is present with
      one class and there are two classes. */
  lemma StratifiedPassesFinalize(groups: Groups, required: set<string>, a: Assignments, test: real, validation: real)
    requires groups != map[] && Stratified(groups, required, a, test, validation) && PureFamilies(groups, required)
    requires |ExpectedClasses(groups)| >= 2
    ensures Finalize(groups, a, required) == None
  {
    StratifiedCovers(groups, required, a, test, validation);
    SoundPlanPasses(groups, required, a);
  }

  lemma HoldoutIsSound(groups: Groups, required: set<string>, t: string, v: string)
    requires IsHoldout(groups, required, t, v)
    ensures SoundPlan(groups, required, SessionSplit(groups, t, v)) && SessionsWhole(groups, SessionSplit(groups, t, v))
  {
  }

  /** The session branch: a plan if one exists, an error only for want of a second class. */
  method PlanBySessions(groups: Groups, required: set<string>) returns (r: Option<Result<Plan, SplitError>>)
    requires groups != map[]
    ensures r.Some? <==> HoldoutExists(groups, required)
    ensures r.Some? ==> (r.value.Ok? <==> |ExpectedClasses(groups)| >= 2)
    ensures r.Some? && r.value.Err? ==> r.value.error == TooFewClasses
    ensures r.Some? && r.value.Ok? ==>
      r.value.value.strategy == IndependentSessionHoldout && SoundPlan(groups, required, r.value.value.assignments)
      && SessionsWhole(groups, r.value.value.assignments)
  {
    var holdout := SessionAssignments(groups, required);
    if holdout.None? { return None; }
    ghost var t, v :| IsHoldout(groups, required, t, v) && holdout.value == SessionSplit(groups, t, v);
    HoldoutIsSound(groups, required, t, v);
    SoundPlanPasses(groups, required, holdout.value);
    var failure := Finalize(groups, holdout.value, required);
    return Some(if failure.Some? then Err(failure.value) else Ok(Plan(holdout.value, IndependentSessionHoldout)));
  }

  function OfClass(groups: Groups, c: string): set<RunId> {
    set r | r in groups && groups[r].target == c
  }

  function OfFamily(groups: Groups, f: string): set<RunId> {
    set r | r in groups && groups[r].family == f
  }

  /** Whatever the shuffles, the partition gets every class and every required family. */
  ghost predicate SurelyCovered(groups: Groups, required: set<string>, test: real, validation: real, split: Split) {
    && (forall c :: c in ExpectedClasses(groups) ==>
          SurelyReached(groups, required, test, validation, OfClass(groups, c), split))
    && (forall f :: f in required ==>
          SurelyReached(groups, required, test, validation, OfFamily(groups, f), split))
  }

  /** Nothing stands in the way of stratification: enough runs, two classes, and no partition that could
      miss a class or a required family. */
  ghost predicate Stratifiable(groups: Groups, required: set<string>, test: real, validation: real) {
    && AllLarge(groups, required) && |ExpectedClasses(groups)| >= 2
    && forall split :: split in SPLITS ==> SurelyCovered(groups, required, test, validation, split)
  }

  lemma ReachesClass(groups: Groups, a: Assignments, c: string, split: Split)
    requires a.Keys == groups.Keys
    ensures Reaches(a, OfClass(groups, c), split) <==> c in ClassesIn(groups, a, split)
  {
    if r :| r in groups && r in a && a[r] == split && groups[r].target == c { assert r in OfClass(groups, c); }
  }

  lemma ReachesFamily(groups: Groups, a: Assignments, f: string, split: Split)
    requires a.Keys == groups.Keys
    ensures Reaches(a, OfFamily(groups, f), split) <==> f in FamiliesIn(groups, a, split)
  {
    if r :| r in groups && r in a && a[r] == split && groups[r].family == f { assert r in OfFamily(groups, f); }
  }

  lemma CoveredClasses(groups: Groups, required: set<string>, a: Assignments, test: real, validation: real,
      split: Split)
    requires Stratified(groups, required, a, test, validation)
    requires SurelyCovered(groups, required, test, validation, split)
    ensures ClassesIn(groups, a, split) == ExpectedClasses(groups)
  {
    forall c | c in ExpectedClasses(groups)
      ensures c in ClassesIn(groups, a, split)
    {
      var r := OverflowReaches(groups, required, a, test, validation, OfClass(groups, c), split);
    }
  }

  lemma CoveredFamilies(groups: Groups, required: set<string>, a: Assignments, test: real, validation: real,
      split: Split)
    requires Stratified(groups, required, a, test, validation)
    requires SurelyCovered(groups, required, test, validation, split)
    ensures required <= FamiliesIn(groups, a, split)
  {
    forall f | f in required
      ensures f in FamiliesIn(groups, a, split)
    {
      var r := OverflowReaches(groups, required, a, test, validation, OfFamily(groups, f), split);
    }
  }

  lemma StratifiableFinalizes(groups: Groups, required: set<string>, a: Assignments, test: real, validation: real)
    requires groups != map[] && Stratified(groups, required, a, test, validation)
    requires Stratifiable(groups, required, test, validation)
    ensures Finalize(groups, a, required) == None
  {
    forall split | split in SPLITS
      ensures ClassesIn(groups, a, split) == ExpectedClasses(groups) && required <= FamiliesIn(groups, a, split)
    {
      CoveredClasses(groups, required, a, test, validation, split);
      CoveredFamilies(groups, required, a, test, validation, split);
    }
    SoundPlanPasses(groups, required, a);
  }

  /** Every allocation the shuffles can lead to passes the final checks. */
  ghost predicate AlwaysFinalizes(groups: Groups, required: set<string>, test: real, validation: real) {
    AllLarge(groups, required)
    && forall a :: Stratified(groups, required, a, test, validation) ==> Finalize(groups, a, required) == None
  }

  lemma AlwaysCovered(groups: Groups, required: set<string>, test: real, validation: real, split: Split)
    requires AlwaysFinalizes(groups, required, test, validation) && split in SPLITS
    ensures SurelyCovered(groups, required, test, validation, split)
  {
    forall c | c in ExpectedClasses(groups)
      ensures SurelyReached(groups, required, test, validation, OfClass(groups, c), split)
    {
      if !SurelyReached(groups, required, test, validation, OfClass(groups, c), split) {
        var a := AvoidingAllocation(groups, required, test, validation, OfClass(groups, c), split);
        FinalizeErrors(groups, required, a);
        ReachesClass(groups, a, c, split);
      }
    }
    forall f | f in required
      ensures SurelyReached(groups, required, test, validation, OfFamily(groups, f), split)
    {
      if !SurelyReached(groups, required, test, validation, OfFamily(groups, f), split) {
        var a := AvoidingAllocation(groups, required, test, validation, OfFamily(groups, f), split);
        FinalizeErrors(groups, required, a);
        ReachesFamily(groups, a, f, split);
      }
    }
  }

  lemma NothingMarked(groups: Groups, required: set<string>, test: real, validation: real, split: Split)
    ensures !SurelyReached(groups, required, test, validation, {}, split)
  {
    forall run | run in groups
      ensures !Overflows(RunsIn(groups, required, StratumOf(groups[run], required)), test, validation, {}, split)
    {
      var runs := RunsIn(groups, required, StratumOf(groups[run], required));
      assert runs - {} == runs;
    }
  }

  /** Stratification succeeds for every shuffle exactly if all strata are large enough, there are two
      classes, and for each partition and each class or required family some stratum has fewer runs
      outside it than go there. */
  lemma StratifiableExactly(groups: Groups, required: set<string>, test: real, validation: real)
    requires groups != map[]
    ensures AlwaysFinalizes(groups, required, test, validation) <==> Stratifiable(groups, required, test, validation)
  {
    if Stratifiable(groups, required, test, validation) {
      forall a | Stratified(groups, required, a, test, validation)
        ensures Finalize(groups, a, required) == None
      {
        StratifiableFinalizes(groups, required, a, test, validation);
      }
    }
    if AlwaysFinalizes(groups, required, test, validation) {
      NothingMarked(groups, required, test, validation, Test);
      var a := AvoidingAllocation(groups, required, test, validation, {}, Test);
      FinalizeErrors(groups, required, a);
      forall split | split in SPLITS
        ensures SurelyCovered(groups, required, test, validation, split)
      {
        AlwaysCovered(groups, required, test, validation, split);
      }
    }
  }

  /** So it does when every required family is present under one class. */
  lemma PureIsStratifiable(groups: Groups, required: set<string>, test: real, validation: real)
    requires groups != map[] && AllLarge(groups, required) && PureFamilies(groups, required)
    requires |ExpectedClasses(groups)| >= 2
    ensures Stratifiable(groups, required, test, validation)
  {
    forall a | Stratified(groups, required, a, test, validation)
      ensures Finalize(groups, a, required) == None
    {
      StratifiedPassesFinalize(groups, required, a, test, validation);
    }
    StratifiableExactly(groups, required, test, validation);
  }

  lemma FinalizeErrors(groups: Groups, required: set<string>, a: Assignments)
    ensures Finalize(groups, a, required) != Some(BadFractions)
    ensures Finalize(groups, a, required) == None ==> SoundPlan(groups, required, a) && |ExpectedClasses(groups)| >= 2
  {
  }

  method PlanByStrata(groups: Groups, required: set<string>, test: real, validation: real)
    returns (r: Result<Plan, SplitError>)
    requires groups != map[]
    ensures r != Err(BadFractions)
    ensures Stratifiable(groups, required, test, validation) ==> r.Ok?
    ensures r.Ok? ==> r.value.strategy == ClassStratified && SoundPlan(groups, required, r.value.assignments)
                      && |ExpectedClasses(groups)| >= 2 && AllLarge(groups, required)
                      && Stratified(groups, required, r.value.assignments, test, validation)
  {
    var stratified := StratifiedAssignments(groups, required, test, validation);
    if stratified.Err? { return Err(stratified.error); }
    var failure := Finalize(groups, stratified.value, required);
    FinalizeErrors(groups, required, stratified.value);
    if Stratifiable(groups, required, test, validation) {
      StratifiableFinalizes(groups, required, stratified.value, test, validation);
    }
    return if failure.Some? then Err(failure.value) else Ok(Plan(stratified.value, ClassStratified));
  }

  /** `make_split_plan` in its primary modes.  `auto` holds out sessions exactly when that is possible
      and stratifies otherwise; every plan returned is sound. */
  method MakeSplitPlan(groups: Groups, mode: Mode, required: set<string>, test: real, validation: real)
    returns (r: Result<Plan, SplitError>)
    requires groups != map[]
    ensures r != Err(BadFractions) <==>
      0.0 < test < 1.0 && 0.0 < validation < 1.0 && test + validation < 1.0
    ensures r.Ok? ==> SoundPlan(groups, required, r.value.assignments) && |ExpectedClasses(groups)| >= 2
    ensures r.Ok? ==> (r.value.strategy == IndependentSessionHoldout <==>
      mode != StratifiedWholeRun && HoldoutExists(groups, required))
    ensures r.Ok? && r.value.strategy == IndependentSessionHoldout ==> SessionsWhole(groups, r.value.assignments)
    ensures r.Ok? && r.value.strategy == ClassStratified ==>
      Stratified(groups, required, r.value.assignments, test, validation)
    ensures LegalFractions(test, validation) && mode != StratifiedWholeRun && HoldoutExists(groups, required) ==>
      (r.Ok? <==> |ExpectedClasses(groups)| >= 2)
    ensures LegalFractions(test, validation) && mode == SessionHoldout && !HoldoutExists(groups, required) ==>
      r == Err(NoSessionHoldout)
    ensures (LegalFractions(test, validation) && mode != SessionHoldout
      && Stratifiable(groups, required, test, validation)) ==>
      r.Ok?
  {
    if !LegalFractions(test, validation) { return Err(BadFractions); }
    if mode != StratifiedWholeRun {
      var bySessions := PlanBySessions(groups, required);
      if bySessions.Some? { return bySessions.value; }
      if mode == SessionHoldout { return Err(NoSessionHoldout); }
    }
    r := PlanByStrata(groups, required, test, validation);
  }
}
