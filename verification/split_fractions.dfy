/** How a stratified allocation follows the fractions, read off the parts of the assignment. */
module SplitFractions {
  import opened Common
  import opened Splits

  /** `k` is a nearest whole number to `x`, the even one of two. */
  predicate Nearest(k: int, x: real) {
    k as real - 0.5 <= x <= k as real + 0.5 && (x == k as real - 0.5 || x == k as real + 0.5 ==> k % 2 == 0)
  }

  /** `k` is the wanted size of a part whose share is `x`: the nearest whole number, raised to one run. */
  predicate Wanted(k: int, x: real) {
    (k >= 1 && Nearest(k, x)) || (k == 1 && x <= 0.5)
  }

  lemma NearestIsRound(k: int, x: real)
    ensures Nearest(k, x) <==> k == RoundHalfEven(x)
  {
  }

  lemma WantedExactly(k: int, x: real)
    ensures Wanted(k, x) <==> k == AtLeastOne(RoundHalfEven(x))
  {
    NearestIsRound(k, x);
    NearestIsRound(RoundHalfEven(x), x);
  }

  /** The runs that are split together with `run`: those of its family if the family is required, and
      otherwise those of its class that belong to no required family. */
  function Together(groups: Groups, required: set<string>, run: RunId): set<RunId>
    requires run in groups
  {
    if groups[run].family in required then set r | r in groups && groups[r].family == groups[run].family
    else set r | r in groups && groups[r].family !in required && groups[r].target == groups[run].target
  }

  lemma TogetherIsStratum(groups: Groups, required: set<string>, run: RunId)
    requires run in groups
    ensures Together(groups, required, run) == RunsIn(groups, required, StratumOf(groups[run], required))
  {
  }

  /** How many of the runs have the split. */
  function Count(a: Assignments, runs: set<RunId>, split: Split): nat {
    |set r | r in runs && r in a && a[r] == split|
  }

  /** Both parts have their wanted sizes if that leaves a run to train on.  If not, exactly one run is left
      to train on: the validation part gives way first, and the test part only once validation has one run. */
  predicate CutTo(a: Assignments, runs: set<RunId>, test: int, validation: int) {
    var n, t, v := |runs|, Count(a, runs, Test), Count(a, runs, Validation);
    && Count(a, runs, Train) == n - t - v
    && (test + validation < n ==> t == test && v == validation)
    && (test + validation >= n ==> t + v == n - 1 && if test < n - 1 then t == test else v == 1)
  }

  predicate IsCut(a: Assignments, runs: set<RunId>, test: real, validation: real, t: int, v: int) {
    Wanted(t, |runs| as real * test) && Wanted(v, |runs| as real * validation) && CutTo(a, runs, t, v)
  }

  /** All of the at least three runs are placed, in parts that follow the fractions. */
  ghost predicate FollowsFractions(a: Assignments, runs: set<RunId>, test: real, validation: real) {
    |runs| >= 3 && runs <= a.Keys && exists t, v :: IsCut(a, runs, test, validation, t, v)
  }

  lemma CountIsPart(a: Assignments, runs: set<RunId>, split: Split)
    ensures Count(a, runs, split) == |PartIn(a, runs, split)|
  {
    assert (set r | r in runs && r in a && a[r] == split) == PartIn(a, runs, split);
  }

  lemma CutToExactly(a: Assignments, runs: set<RunId>, test: real, validation: real)
    requires |runs| >= 3 && runs <= a.Keys
    ensures Proportioned(a, runs, test, validation) <==>
      CutTo(a, runs, AtLeastOne(RoundHalfEven(|runs| as real * test)),
            AtLeastOne(RoundHalfEven(|runs| as real * validation)))
  {
    CountIsPart(a, runs, Test);
    CountIsPart(a, runs, Validation);
    CountIsPart(a, runs, Train);
  }

  lemma ProportionedExactly(a: Assignments, runs: set<RunId>, test: real, validation: real)
    ensures Proportioned(a, runs, test, validation) <==> FollowsFractions(a, runs, test, validation)
  {
    if |runs| >= 3 && runs <= a.Keys {
      var x, y := |runs| as real * test, |runs| as real * validation;
      var t0, v0 := AtLeastOne(RoundHalfEven(x)), AtLeastOne(RoundHalfEven(y));
      WantedExactly(t0, x);
      WantedExactly(v0, y);
      CutToExactly(a, runs, test, validation);
      if Proportioned(a, runs, test, validation) {
        assert IsCut(a, runs, test, validation, t0, v0);
      }
      if FollowsFractions(a, runs, test, validation) {
        var t, v :| IsCut(a, runs, test, validation, t, v);
        WantedExactly(t, x);
        WantedExactly(v, y);
      }
    }
  }

  /** An assignment is stratified exactly if it places every run and every family or class that is split
      together follows the fractions. */
  lemma StratifiedExactly(groups: Groups, required: set<string>, a: Assignments, test: real, validation: real)
    ensures Stratified(groups, required, a, test, validation) <==>
      && a.Keys == groups.Keys
      && forall run :: run in groups ==> FollowsFractions(a, Together(groups, required, run), test, validation)
  {
    forall run | run in groups
      ensures Proportioned(a, RunsIn(groups, required, StratumOf(groups[run], required)), test, validation)
              <==> FollowsFractions(a, Together(groups, required, run), test, validation)
    {
      TogetherIsStratum(groups, required, run);
      ProportionedExactly(a, Together(groups, required, run), test, validation);
    }
  }

  /** No family or class is too small to be cut in three. */
  lemma AllLargeExactly(groups: Groups, required: set<string>)
    ensures AllLarge(groups, required) <==> forall run :: run in groups ==> |Together(groups, required, run)| >= 3
  {
    forall run | run in groups
      ensures Together(groups, required, run) == RunsIn(groups, required, StratumOf(groups[run], required))
    {
      TogetherIsStratum(groups, required, run);
    }
  }

  // How far a part is from its share

  /** A part is more than one half above its share exactly if the share is under one half, and then the
      part is a single run. */
  lemma TooLargeExactly(a: Assignments, runs: set<RunId>, test: real, validation: real)
    requires FollowsFractions(a, runs, test, validation)
    ensures var n, t, v := |runs| as real, Count(a, runs, Test), Count(a, runs, Validation);
      && t >= 1 && v >= 1
      && (t as real > n * test + 0.5 <==> n * test < 0.5) && (n * test < 0.5 ==> t == 1)
      && (v as real > n * validation + 0.5 <==> n * validation < 0.5) && (n * validation < 0.5 ==> v == 1)
  {
    var t, v :| IsCut(a, runs, test, validation, t, v);
  }

  /** A part more than one half below its share has given way: a single run is left to train on, and if it is
      the test part, a single one to validate on. */
  lemma TooSmallGaveWay(a: Assignments, runs: set<RunId>, test: real, validation: real)
    requires FollowsFractions(a, runs, test, validation)
    ensures var n, t, v := |runs| as real, Count(a, runs, Test), Count(a, runs, Validation);
      && (v as real < n * validation - 0.5 ==> Count(a, runs, Train) == 1)
      && (t as real < n * test - 0.5 ==> Count(a, runs, Train) == 1 && v == 1)
  {
    var t, v :| IsCut(a, runs, test, validation, t, v);
  }

  /** Fractions that leave a share of more than two runs to train on are met to within one half, or by a
      single run where the share is smaller. */
  lemma AmpleTrainingShare(a: Assignments, runs: set<RunId>, test: real, validation: real)
    requires FollowsFractions(a, runs, test, validation)
    requires |runs| as real * (1.0 - test - validation) > 2.0
    requires test > 0.0 && validation > 0.0
    ensures var n, t, v := |runs| as real, Count(a, runs, Test), Count(a, runs, Validation);
      && n * test - 0.5 <= t as real && (t as real <= n * test + 0.5 || t == 1)
      && n * validation - 0.5 <= v as real && (v as real <= n * validation + 0.5 || v == 1)
  {
    var t, v :| IsCut(a, runs, test, validation, t, v);
    assert |runs| as real * test > 0.0 && |runs| as real * validation > 0.0;
    assert t as real <= |runs| as real * test + 1.0;
  }
}
