/** Which runs a stratified allocation brings into a partition, whatever the shuffles are. */
module Stratification {
  import opened Common
  import opened Splits

  /** How many of `n` runs of a stratum go to the partition. */
  function PartSize(split: Split, n: nat, test: real, validation: real): nat
    requires n >= 3
  {
    var (t, v) := Sizes(n, test, validation);
    match split
    case Test => t
    case Validation => v
    case Train => n - t - v
  }

  /** In some stratum the runs outside `marked` are too few to fill the partition. */
  ghost predicate SurelyReached(groups: Groups, required: set<string>, test: real, validation: real,
      marked: set<RunId>, split: Split)
  {
    exists run :: run in groups
      && Overflows(RunsIn(groups, required, StratumOf(groups[run], required)), test, validation, marked, split)
  }

  predicate Overflows(runs: set<RunId>, test: real, validation: real, marked: set<RunId>, split: Split) {
    |runs| >= 3 && |runs - marked| < PartSize(split, |runs|, test, validation)
  }

  lemma SubsetSize(s: set<RunId>, t: set<RunId>)
    requires s <= t
    ensures |s| <= |t|
  {
    assert t == s + (t - s);
  }

  lemma PartHasSize(a: Assignments, runs: set<RunId>, test: real, validation: real, split: Split)
    requires Proportioned(a, runs, test, validation)
    ensures |PartIn(a, runs, split)| == PartSize(split, |runs|, test, validation)
  {
  }

  /** Then every stratified allocation brings a marked run into the partition. */
  lemma OverflowReaches(groups: Groups, required: set<string>, a: Assignments, test: real, validation: real,
      marked: set<RunId>, split: Split) returns (r: RunId)
    requires Stratified(groups, required, a, test, validation)
    requires SurelyReached(groups, required, test, validation, marked, split)
    ensures r in groups && r in marked && r in a && a[r] == split
  {
    var run :| run in groups
      && Overflows(RunsIn(groups, required, StratumOf(groups[run], required)), test, validation, marked, split);
    var runs := RunsIn(groups, required, StratumOf(groups[run], required));
    PartHasSize(a, runs, test, validation, split);
    var part := PartIn(a, runs, split);
    if part <= runs - marked { SubsetSize(part, runs - marked); }
    r :| r in part && r !in runs - marked;
  }

  // The converse: an allocation that keeps the marked runs out

  lemma {:induction false} SubsetOfSize(s: set<RunId>, n: nat) returns (t: set<RunId>)
    requires n <= |s|
    ensures t <= s && |t| == n
  {
    if n == 0 {
      t := {};
    } else {
      var x :| x in s;
      t := SubsetOfSize(s - {x}, n - 1);
      t := t + {x};
    }
  }

  /** The two other partitions. */
  function Others(split: Split): (Split, Split) {
    match split
    case Test => (Validation, Train)
    case Validation => (Test, Train)
    case Train => (Test, Validation)
  }

  lemma SizesAddUp(split: Split, n: nat, test: real, validation: real)
    requires n >= 3
    ensures var (p, q) := Others(split);
      PartSize(split, n, test, validation) + PartSize(p, n, test, validation) + PartSize(q, n, test, validation) == n
  {
  }

  /** The allocation of one stratum from the two parts that are chosen. */
  function Cut(runs: set<RunId>, split: Split, first: set<RunId>, second: set<RunId>): (a: Assignments)
    ensures a.Keys == runs
  {
    var (p, q) := Others(split);
    map r | r in runs :: if r in first then split else if r in second then p else q
  }

  lemma CutParts(runs: set<RunId>, split: Split, first: set<RunId>, second: set<RunId>)
    requires first <= runs && second <= runs - first
    ensures var (p, q) := Others(split);
      && PartIn(Cut(runs, split, first, second), runs, split) == first
      && PartIn(Cut(runs, split, first, second), runs, p) == second
      && PartIn(Cut(runs, split, first, second), runs, q) == runs - first - second
  {
  }

  lemma CutIsProportioned(runs: set<RunId>, test: real, validation: real, split: Split, first: set<RunId>,
      second: set<RunId>)
    requires |runs| >= 3 && first <= runs && second <= runs - first
    requires |first| == PartSize(split, |runs|, test, validation)
    requires |second| == PartSize(Others(split).0, |runs|, test, validation)
    ensures Proportioned(Cut(runs, split, first, second), runs, test, validation)
  {
    CutParts(runs, split, first, second);
    SizesAddUp(split, |runs|, test, validation);
    assert |runs - first - second| == |runs| - |first| - |second|;
  }

  lemma CutAvoiding(runs: set<RunId>, test: real, validation: real, marked: set<RunId>, split: Split)
    returns (a: Assignments)
    requires |runs| >= 3 && !Overflows(runs, test, validation, marked, split)
    ensures a.Keys == runs && Proportioned(a, runs, test, validation)
    ensures forall r :: r in runs && r in marked ==> a[r] != split
  {
    var n := |runs|;
    var first := SubsetOfSize(runs - marked, PartSize(split, n, test, validation));
    SizesAddUp(split, n, test, validation);
    assert |runs - first| == n - |first|;
    var second := SubsetOfSize(runs - first, PartSize(Others(split).0, n, test, validation));
    CutIsProportioned(runs, test, validation, split, first, second);
    a := Cut(runs, split, first, second);
  }

  /** All strata but those in `rest` are allocated, without a marked run in the partition. */
  ghost predicate Avoided(groups: Groups, required: set<string>, a: Assignments, test: real, validation: real,
      marked: set<RunId>, split: Split, rest: set<Stratum>)
  {
    && (forall r :: r in a <==> r in groups && StratumOf(groups[r], required) !in rest)
    && (forall r :: r in a && r in marked ==> a[r] != split)
    && (forall r :: r in groups && StratumOf(groups[r], required) !in rest ==>
          Proportioned(a, RunsIn(groups, required, StratumOf(groups[r], required)), test, validation))
  }

  lemma StrataApart(groups: Groups, required: set<string>, k: Stratum, key: Stratum)
    requires k != key
    ensures RunsIn(groups, required, k) !! RunsIn(groups, required, key)
  {
  }

  lemma AvoidedStep(groups: Groups, required: set<string>, a: Assignments, cut: Assignments,
      test: real, validation: real, marked: set<RunId>, split: Split, rest: set<Stratum>, key: Stratum)
    requires Avoided(groups, required, a, test, validation, marked, split, rest) && key in rest
    requires cut.Keys == RunsIn(groups, required, key)
    requires Proportioned(cut, RunsIn(groups, required, key), test, validation)
    requires forall r :: r in cut && r in marked ==> cut[r] != split
    ensures Avoided(groups, required, a + cut, test, validation, marked, split, rest - {key})
  {
    forall r | r in groups && StratumOf(groups[r], required) !in rest - {key}
      ensures Proportioned(a + cut, RunsIn(groups, required, StratumOf(groups[r], required)), test, validation)
    {
      var k := StratumOf(groups[r], required);
      if k == key {
        KeepsProportioned(cut, a + cut, RunsIn(groups, required, key), test, validation);
      } else {
        StrataApart(groups, required, k, key);
        KeepsProportioned(a, a + cut, RunsIn(groups, required, k), test, validation);
      }
    }
  }

  function Strata(groups: Groups, required: set<string>): set<Stratum> {
    set r | r in groups :: StratumOf(groups[r], required)
  }

  lemma AvoidNext(groups: Groups, required: set<string>, a: Assignments, test: real, validation: real,
      marked: set<RunId>, split: Split, rest: set<Stratum>, key: Stratum) returns (a': Assignments)
    requires AllLarge(groups, required) && !SurelyReached(groups, required, test, validation, marked, split)
    requires key in Strata(groups, required) && key in rest
    requires Avoided(groups, required, a, test, validation, marked, split, rest)
    ensures Avoided(groups, required, a', test, validation, marked, split, rest - {key})
  {
    var run :| run in groups && StratumOf(groups[run], required) == key;
    assert !Overflows(RunsIn(groups, required, StratumOf(groups[run], required)), test, validation, marked, split);
    var cut := CutAvoiding(RunsIn(groups, required, key), test, validation, marked, split);
    AvoidedStep(groups, required, a, cut, test, validation, marked, split, rest, key);
    a' := a + cut;
  }

  lemma AllAvoided(groups: Groups, required: set<string>, a: Assignments, test: real, validation: real,
      marked: set<RunId>, split: Split)
    requires Avoided(groups, required, a, test, validation, marked, split, {})
    ensures Stratified(groups, required, a, test, validation) && !Reaches(a, marked, split)
  {
  }

  /** If no stratum overflows, some stratified allocation brings no marked run into the partition. */
  lemma AvoidingAllocation(groups: Groups, required: set<string>, test: real, validation: real,
      marked: set<RunId>, split: Split) returns (a: Assignments)
    requires AllLarge(groups, required) && !SurelyReached(groups, required, test, validation, marked, split)
    ensures Stratified(groups, required, a, test, validation) && !Reaches(a, marked, split)
  {
    a := map[];
    var rest := Strata(groups, required);
    while rest != {}
      invariant rest <= Strata(groups, required)
      invariant Avoided(groups, required, a, test, validation, marked, split, rest)
      decreases |rest|
    {
      var key :| key in rest;
      a := AvoidNext(groups, required, a, test, validation, marked, split, rest, key);
      rest := rest - {key};
    }
    AllAvoided(groups, required, a, test, validation, marked, split);
  }

  /** Every stratified allocation brings a marked run into the partition exactly if some stratum has fewer
      unmarked runs than go there. */
  lemma ReachedExactly(groups: Groups, required: set<string>, test: real, validation: real,
      marked: set<RunId>, split: Split)
    requires AllLarge(groups, required)
    ensures (forall a :: Stratified(groups, required, a, test, validation) ==> Reaches(a, marked, split))
            <==> SurelyReached(groups, required, test, validation, marked, split)
  {
    if SurelyReached(groups, required, test, validation, marked, split) {
      forall a | Stratified(groups, required, a, test, validation)
        ensures Reaches(a, marked, split)
      {
        var r := OverflowReaches(groups, required, a, test, validation, marked, split);
      }
    } else {
      var a := AvoidingAllocation(groups, required, test, validation, marked, split);
    }
  }

  ghost predicate Reaches(a: Assignments, marked: set<RunId>, split: Split) {
    exists r :: r in marked && r in a && a[r] == split
  }
}
