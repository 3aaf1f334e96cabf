/** Leakage-free whole-run splitting (evaluation/splits.py). */
module Splits {
  import opened Common

  datatype Split = Train | Validation | Test

  const SPLITS: set<Split> := {Train, Validation, Test}

  datatype RunGroup = RunGroup(session: string, target: string, family: string, config: string)

  type RunId = string
  type Groups = map<RunId, RunGroup>
  type Assignments = map<RunId, Split>

  datatype SplitError =
    | BadFractions | TooFewRuns(stratum: Stratum) | CannotPartition(stratum: Stratum) | NoSessionHoldout
    | NotCovering | EmptyPartition | TooFewClasses | MissingClass | MissingFamily

  // ----- shuffling

  /** A shuffle by an unknown generator: any arrangement of the same elements. */
  method Shuffle<T>(s: seq<T>) returns (r: seq<T>)
    ensures multiset(r) == multiset(s)
  {
    var rest := s;
    r := [];
    while rest != []
      invariant multiset(r) + multiset(rest) == multiset(s)
      decreases |rest|
    {
      var k :| 0 <= k < |rest|;
      assert rest == rest[..k] + [rest[k]] + rest[k + 1..];
      r := r + [rest[k]];
      rest := rest[..k] + rest[k + 1..];
    }
  }

  lemma {:induction false} DistinctIsMultisetProperty(s: seq<RunId>, t: seq<RunId>)
    requires multiset(s) == multiset(t) && Distinct(s)
    ensures Distinct(t) && (forall x :: x in t <==> x in s) && |s| == |t|
  {
    assert |multiset(s)| == |s| && |multiset(t)| == |t|;
    forall x ensures x in t <==> x in s {
      assert x in t <==> x in multiset(t);
      assert x in s <==> x in multiset(s);
    }
    forall i, j | 0 <= i < j < |t|
      ensures t[i] != t[j]
    {
      if t[i] == t[j] {
        assert t == t[..i] + [t[i]] + t[i + 1..j] + [t[j]] + t[j + 1..];
        assert multiset(t)[t[i]] >= 2;
        OnlyOnce(s, t[i]);
        assert false;
      }
    }
  }

  lemma {:induction false} OnlyOnce(s: seq<RunId>, x: RunId)
    requires Distinct(s)
    ensures multiset(s)[x] <= 1
  {
    if s != [] {
      var n := |s| - 1;
      OnlyOnce(s[..n], x);
      assert s == s[..n] + [s[n]];
      if s[n] == x { assert x !in s[..n]; assert x !in multiset(s[..n]); }
    }
  }

  // ----- partition sizes

  /** Python's `round`: halves go to the even neighbour. */
  function RoundHalfEven(x: real): int {
    var low := x.Floor;
    var fraction := x - low as real;
    if fraction < 0.5 then low
    else if fraction > 0.5 then low + 1
    else if low % 2 == 0 then low else low + 1
  }

  function AtLeastOne(n: int): nat
    ensures AtLeastOne(n) >= 1
  {
    if n < 1 then 1 else n
  }

  predicate LegalFractions(test: real, validation: real) {
    0.0 < test < 1.0 && 0.0 < validation < 1.0 && test + validation < 1.0
  }

  /** The sizes of test and validation among `n` runs: the rounded fractions, at least one each; where
      they would leave nothing to train on, validation gives way before test, each down to one run. */
  function Sizes(n: nat, test: real, validation: real): (r: (nat, nat))
    requires n >= 3
    ensures r.0 >= 1 && r.1 >= 1 && n - r.0 - r.1 >= 1
  {
    var t, v := AtLeastOne(RoundHalfEven(n as real * test)), AtLeastOne(RoundHalfEven(n as real * validation));
    (if t < n - 1 then t else n - 2, if t + v < n then v else if t < n - 1 then n - 1 - t else 1)
  }

  /** The adjustment loop; its error branch is never reached from three runs on. */
  method PartitionSizes(n: nat, test: real, validation: real) returns (sizes: Option<(nat, nat)>)
    requires n >= 3
    ensures sizes == Some(Sizes(n, test, validation))
  {
    var testCount := AtLeastOne(RoundHalfEven(n as real * test));
    var validationCount := AtLeastOne(RoundHalfEven(n as real * validation));
    ghost var t0, v0 := testCount, validationCount;
    while testCount + validationCount >= n
      invariant 1 <= testCount <= t0 && 1 <= validationCount <= v0
      invariant validationCount > 1 ==> testCount == t0
      invariant testCount + validationCount >= n || (t0 + v0 < n && testCount == t0 && validationCount == v0)
                || testCount + validationCount == n - 1
      decreases testCount + validationCount
    {
      if validationCount > 1 {
        validationCount := validationCount - 1;
      } else if testCount > 1 {
        testCount := testCount - 1;
      } else {
        return None;
      }
    }
    return Some((testCount, validationCount));
  }

  // ----- stratified allocation

  /** Runs of a required family form one stratum per family, the others one per class. */
  datatype Stratum = Family(family: string) | Class(target: string)

  function StratumOf(g: RunGroup, required: set<string>): Stratum {
    if g.family in required then Family(g.family) else Class(g.target)
  }

  function RunsIn(groups: Groups, required: set<string>, k: Stratum): set<RunId> {
    set r | r in groups && StratumOf(groups[r], required) == k
  }

  ghost predicate Covers(groups: Groups, required: set<string>, strata: map<Stratum, seq<RunId>>) {
    && (forall k :: k in strata ==> Distinct(strata[k]) && strata[k] != [])
    && (forall k, r :: k in strata && r in strata[k] ==> r in groups && StratumOf(groups[r], required) == k)
    && (forall r :: r in groups ==>
      StratumOf(groups[r], required) in strata && r in strata[StratumOf(groups[r], required)])
  }

  /** `strata` covers the runs outside `rest`. */
  ghost predicate Collected(groups: Groups, required: set<string>, strata: map<Stratum, seq<RunId>>, rest: set<RunId>) {
    && (forall k :: k in strata ==> Distinct(strata[k]) && strata[k] != [])
    && (forall k, r :: k in strata && r in strata[k] ==>
      r in groups && r !in rest && StratumOf(groups[r], required) == k)
    && (forall r :: r in groups && r !in rest ==>
      StratumOf(groups[r], required) in strata && r in strata[StratumOf(groups[r], required)])
  }

  lemma DistinctSnoc(runs: seq<RunId>, run: RunId)
    requires Distinct(runs) && run !in runs
    ensures Distinct(runs + [run])
  {
  }

  lemma CollectedStep(groups: Groups, required: set<string>, strata: map<Stratum, seq<RunId>>, rest: set<RunId>,
      run: RunId)
    requires run in rest && run in groups && Collected(groups, required, strata, rest)
    ensures var key := StratumOf(groups[run], required);
      var known := if key in strata then strata[key] else [];
      Collected(groups, required, strata[key := known + [run]], rest - {run})
  {
    var key := StratumOf(groups[run], required);
    if key in strata { DistinctSnoc(strata[key], run); }
  }

  /** The first loop: collect the runs of every stratum. */
  method CollectStrata(groups: Groups, required: set<string>) returns (strata: map<Stratum, seq<RunId>>)
    ensures Covers(groups, required, strata)
  {
    strata := map[];
    var rest := groups.Keys;
    while rest != {}
      invariant rest <= groups.Keys && Collected(groups, required, strata, rest)
      decreases |rest|
    {
      var run :| run in rest;
      CollectedStep(groups, required, strata, rest, run);
      var key := StratumOf(groups[run], required);
      var known := if key in strata then strata[key] else [];
      strata := strata[key := known + [run]];
      rest := rest - {run};
    }
  }

  function Members(runs: seq<RunId>): set<RunId> {
    set r | r in runs
  }

  function PartOf(i: nat, test: nat, validation: nat): Split {
    if i < test then Test else if i < test + validation then Validation else Train
  }

  /** Every split has a run of the stratum. */
  ghost predicate Represented(a: Assignments, runs: set<RunId>) {
    forall split :: split in SPLITS ==> exists r :: r in runs && r in a && a[r] == split
  }

  function PartIn(a: Assignments, runs: set<RunId>, split: Split): set<RunId> {
    set r | r in runs && r in a && a[r] == split
  }

  /** All runs of the stratum are placed, in parts of exactly the intended sizes. */
  ghost predicate Proportioned(a: Assignments, runs: set<RunId>, test: real, validation: real) {
    && |runs| >= 3 && runs <= a.Keys
    && var (t, v) := Sizes(|runs|, test, validation);
       |PartIn(a, runs, Test)| == t && |PartIn(a, runs, Validation)| == v && |PartIn(a, runs, Train)| == |runs| - t - v
  }

  lemma ProportionedIsRepresented(a: Assignments, runs: set<RunId>, test: real, validation: real)
    requires Proportioned(a, runs, test, validation)
    ensures Represented(a, runs)
  {
    forall split | split in SPLITS
      ensures exists r :: r in runs && r in a && a[r] == split
    {
      assert |PartIn(a, runs, split)| >= 1;
      var r :| r in PartIn(a, runs, split);
    }
  }

  /** The allocation of one shuffled stratum. */
  method AllocateStratum(a: Assignments, runs: seq<RunId>, test: nat, validation: nat) returns (a': Assignments)
    requires Distinct(runs) && 1 <= test && 1 <= validation && test + validation < |runs|
    ensures forall r :: r in a' <==> r in a || r in runs
    ensures forall r :: r in a && r !in runs ==> a'[r] == a[r]
    ensures forall i :: 0 <= i < |runs| ==> a'[runs[i]] == PartOf(i, test, validation)
  {
    a' := a;
    for i := 0 to |runs|
      invariant forall r :: r in a' <==> r in a || r in runs[..i]
      invariant forall r :: r in a && r !in runs[..i] ==> a'[r] == a[r]
      invariant forall k :: 0 <= k < i ==> a'[runs[k]] == PartOf(k, test, validation)
    {
      assert runs[..i + 1] == runs[..i] + [runs[i]];
      a' := a'[runs[i] := PartOf(i, test, validation)];
    }
    assert runs[..|runs|] == runs;
  }

  /** The part of a split is the slice of the shuffled runs that was cut out for it. */
  lemma PartIsSlice(a: Assignments, runs: seq<RunId>, split: Split, from: nat, to: nat)
    requires Distinct(runs) && from <= to <= |runs|
    requires forall i :: 0 <= i < |runs| ==> runs[i] in a && (a[runs[i]] == split <==> from <= i < to)
    ensures |PartIn(a, Members(runs), split)| == to - from
  {
    var slice := runs[from..to];
    forall r
      ensures r in PartIn(a, Members(runs), split) <==> r in slice
    {
      if r in runs {
        var i :| 0 <= i < |runs| && runs[i] == r;
        if from <= i < to { assert slice[i - from] == r; }
      }
    }
    assert PartIn(a, Members(runs), split) == Members(slice);
    SetOfDistinct(slice);
  }

  lemma AllocationIsProportioned(a: Assignments, runs: seq<RunId>, test: real, validation: real)
    requires Distinct(runs) && |runs| >= 3
    requires var (t, v) := Sizes(|runs|, test, validation);
      forall i :: 0 <= i < |runs| ==> runs[i] in a && a[runs[i]] == PartOf(i, t, v)
    ensures Proportioned(a, Members(runs), test, validation)
  {
    var (t, v) := Sizes(|runs|, test, validation);
    SetOfDistinct(runs);
    PartIsSlice(a, runs, Test, 0, t);
    PartIsSlice(a, runs, Validation, t, t + v);
    PartIsSlice(a, runs, Train, t + v, |runs|);
  }

  /** One turn of the allocation loop: shuffle a stratum, size its parts, place its runs. */
  method PlaceStratum(a: Assignments, key: Stratum, members: seq<RunId>, test: real, validation: real)
    returns (r: Result<Assignments, SplitError>)
    requires Distinct(members)
    ensures r.Ok? <==> |members| >= 3
    ensures r.Err? ==> r.error == TooFewRuns(key)
    ensures r.Ok? ==> forall x :: x in r.value <==> x in a || x in members
    ensures r.Ok? ==> forall x :: x in a && x !in members ==> r.value[x] == a[x]
    ensures r.Ok? ==> Proportioned(r.value, Members(members), test, validation)
  {
    var runs := Shuffle(members);
    DistinctIsMultisetProperty(members, runs);
    if |runs| < 3 {
      return Err(TooFewRuns(key));
    }
    var sizes := PartitionSizes(|runs|, test, validation);
    if sizes.None? { return Err(CannotPartition(key)); }
    var a' := AllocateStratum(a, runs, sizes.value.0, sizes.value.1);
    AllocationIsProportioned(a', runs, test, validation);
    assert Members(runs) == Members(members);
    return Ok(a');
  }

  /** Every stratum in `done` is large enough and spread over all partitions. */
  ghost predicate Spread(groups: Groups, required: set<string>, a: Assignments, test: real, validation: real,
      done: set<Stratum>) {
    forall k :: k in done ==> Proportioned(a, RunsIn(groups, required, k), test, validation)
  }

  lemma SpreadGrows(groups: Groups, required: set<string>, a: Assignments, a': Assignments, test: real,
      validation: real, done: set<Stratum>, key: Stratum)
    requires Spread(groups, required, a, test, validation, done)
    requires forall r :: r in a && r !in RunsIn(groups, required, key) ==> r in a' && a'[r] == a[r]
    requires key !in done && Proportioned(a', RunsIn(groups, required, key), test, validation)
    ensures Spread(groups, required, a', test, validation, done + {key})
  {
    forall k | k in done
      ensures Proportioned(a', RunsIn(groups, required, k), test, validation)
    {
      KeepsProportioned(a, a', RunsIn(groups, required, k), test, validation);
    }
  }

  ghost predicate AllLarge(groups: Groups, required: set<string>) {
    forall run :: run in groups ==> |RunsIn(groups, required, StratumOf(groups[run], required))| >= 3
  }

  lemma SmallStratum(groups: Groups, required: set<string>, strata: map<Stratum, seq<RunId>>, k: Stratum)
    requires Covers(groups, required, strata) && k in strata && |strata[k]| < 3
    ensures !AllLarge(groups, required)
  {
    StratumMembers(groups, required, strata, k);
    assert strata[k][0] in strata[k];
  }

  /** All strata but those in `rest` are placed. */
  ghost predicate Placed(groups: Groups, required: set<string>, strata: map<Stratum, seq<RunId>>, a: Assignments,
      test: real, validation: real, rest: set<Stratum>) {
    && rest <= strata.Keys
    && (forall run :: run in a <==> run in groups && StratumOf(groups[run], required) !in rest)
    && Spread(groups, required, a, test, validation, strata.Keys - rest)
  }

  lemma PlacedStep(groups: Groups, required: set<string>, strata: map<Stratum, seq<RunId>>, a: Assignments,
      a': Assignments, test: real, validation: real, rest: set<Stratum>, key: Stratum)
    requires Covers(groups, required, strata) && Placed(groups, required, strata, a, test, validation, rest)
      && key in rest
    requires Proportioned(a', Members(strata[key]), test, validation)
    requires forall x :: x in a' <==> x in a || x in strata[key]
    requires forall x :: x in a && x !in strata[key] ==> a'[x] == a[x]
    ensures Placed(groups, required, strata, a', test, validation, rest - {key})
  {
    StratumMembers(groups, required, strata, key);
    SpreadGrows(groups, required, a, a', test, validation, strata.Keys - rest, key);
    assert strata.Keys - (rest - {key}) == strata.Keys - rest + {key};
  }

  lemma AllPlaced(groups: Groups, required: set<string>, strata: map<Stratum, seq<RunId>>, a: Assignments, test: real,
      validation: real)
    requires Covers(groups, required, strata) && Placed(groups, required, strata, a, test, validation, {})
    ensures AllLarge(groups, required) && Stratified(groups, required, a, test, validation)
  {
    assert strata.Keys - {} == strata.Keys;
    SpreadIsStratified(groups, required, a, test, validation, strata.Keys);
  }

  lemma SpreadIsStratified(groups: Groups, required: set<string>, a: Assignments, test: real, validation: real,
      done: set<Stratum>)
    requires Spread(groups, required, a, test, validation, done)
    requires forall run :: run in groups ==> StratumOf(groups[run], required) in done
    requires forall run :: run in a <==> run in groups
    ensures AllLarge(groups, required) && Stratified(groups, required, a, test, validation)
  {
  }

  /** `_stratified_assignments`.  It fails exactly when some stratum has fewer than three runs, and
      otherwise places every run once, with every stratum cut to the intended sizes, so that it reaches all
      three partitions. */
  method StratifiedAssignments(groups: Groups, required: set<string>, test: real, validation: real)
    returns (r: Result<Assignments, SplitError>)
    ensures r.Ok? <==> AllLarge(groups, required)
    ensures r.Err? ==> r.error.TooFewRuns?
    ensures r.Ok? ==> Stratified(groups, required, r.value, test, validation)
  {
    var strata := CollectStrata(groups, required);
    var a: Assignments := map[];
    var rest := strata.Keys;
    while rest != {}
      invariant Placed(groups, required, strata, a, test, validation, rest)
      decreases |rest|
    {
      var key :| key in rest;
      var placed := PlaceStratum(a, key, strata[key], test, validation);
      if placed.Err? {
        SmallStratum(groups, required, strata, key);
        return placed;
      }
      PlacedStep(groups, required, strata, a, placed.value, test, validation, rest, key);
      a, rest := placed.value, rest - {key};
    }
    AllPlaced(groups, required, strata, a, test, validation);
    return Ok(a);
  }

  /** Every run is placed, and every stratum is cut into parts of exactly the intended sizes. */
  ghost predicate Stratified(groups: Groups, required: set<string>, a: Assignments, test: real, validation: real) {
    && a.Keys == groups.Keys
    && forall run :: run in groups ==>
      Proportioned(a, RunsIn(groups, required, StratumOf(groups[run], required)), test, validation)
  }

  lemma KeepsProportioned(a: Assignments, a': Assignments, runs: set<RunId>, test: real, validation: real)
    requires Proportioned(a, runs, test, validation) && forall r :: r in runs && r in a ==> r in a' && a'[r] == a[r]
    ensures Proportioned(a', runs, test, validation)
  {
    forall split
      ensures PartIn(a', runs, split) == PartIn(a, runs, split)
    {
    }
  }

  lemma StratumMembers(groups: Groups, required: set<string>, strata: map<Stratum, seq<RunId>>, k: Stratum)
    requires Covers(groups, required, strata) && k in strata
    ensures |RunsIn(groups, required, k)| == |strata[k]|
    ensures RunsIn(groups, required, k) == Members(strata[k])
    ensures forall r :: r in strata[k] <==> r in groups && StratumOf(groups[r], required) == k
  {
    assert RunsIn(groups, required, k) == Members(strata[k]);
    SetOfDistinct(strata[k]);
  }

  lemma {:induction false} SetOfDistinct(s: seq<RunId>)
    requires Distinct(s)
    ensures |Members(s)| == |s|
  {
    if s != [] {
      var n := |s| - 1;
      SetOfDistinct(s[..n]);
      assert s == s[..n] + [s[n]];
      assert Members(s) == Members(s[..n]) + {s[n]};
    }
  }
}
