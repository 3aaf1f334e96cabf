/** Grouped cross-validation over complete runs (evaluation/splits.py, `group_cross_validation_folds`). */
module Folds {
  import opened Common
  import opened Arithmetic
  import opened Splits

  datatype GroupField = ByRun | BySession | ByFamily

  datatype FoldMode = GroupKFold(splits: int) | LeaveOneGroupOut

  datatype Fold = Fold(trainGroups: seq<string>, testGroups: seq<string>, trainRuns: set<RunId>, testRuns: set<RunId>)

  datatype FoldError = TooFewGroups | BadSplitCount | Leakage

  function KeyOf(field: GroupField, run: RunId, g: RunGroup): string {
    match field
    case ByRun => run
    case BySession => g.session
    case ByFamily => g.family
  }

  function Keys(groups: Groups, field: GroupField): set<string> {
    set run | run in groups :: KeyOf(field, run, groups[run])
  }

  function RunsUnder(groups: Groups, field: GroupField, keys: seq<string>): set<RunId> {
    set run | run in groups && KeyOf(field, run, groups[run]) in keys
  }

  // The groups of one fold

  /** `ids[index::step]`. */
  function Strided(ids: seq<string>, index: nat, step: nat): seq<string>
    requires step > 0
    decreases |ids| - index
  {
    if index >= |ids| then [] else [ids[index]] + Strided(ids, index + step, step)
  }

  /** Position `p` belongs to the fold of its remainder. */
  ghost predicate InStride(ids: seq<string>, index: nat, step: nat, x: string)
    requires step > 0
  {
    exists p :: index <= p < |ids| && p % step == index % step && ids[p] == x
  }

  lemma StepKeepsRemainder(p: int, step: int)
    requires step > 0
    ensures (p + step) % step == p % step
  {
    var q, r := p / step, p % step;
    assert p + step == (q + 1) * step + r;
    QuotientIs(p + step, step, q + 1, r);
  }

  /** Two positions with the same remainder are equal or a whole step apart. */
  lemma SameRemainder(p: int, q: int, step: int)
    requires step > 0 && p < q && p % step == q % step
    ensures p + step <= q
  {
    var d := q / step - p / step;
    assert q - p == d * step;
    MultipleOutside(d, step);
  }

  lemma {:induction false} StridedExactly(ids: seq<string>, index: nat, step: nat, x: string)
    requires step > 0
    ensures x in Strided(ids, index, step) <==> InStride(ids, index, step, x)
    decreases |ids| - index
  {
    if index < |ids| {
      StridedExactly(ids, index + step, step, x);
      StepKeepsRemainder(index, step);
      if p :| index <= p < |ids| && p % step == index % step && ids[p] == x {
        if index < p { SameRemainder(index, p, step); }
      }
    }
  }

  lemma {:induction false} StridedSize(ids: seq<string>, index: nat, step: nat)
    requires step > 0
    ensures index < |ids| ==>
      (|Strided(ids, index, step)| - 1) * step < |ids| - index <= |Strided(ids, index, step)| * step
    ensures index >= |ids| ==> Strided(ids, index, step) == []
    decreases |ids| - index
  {
    if index < |ids| {
      StridedSize(ids, index + step, step);
      var n := |Strided(ids, index + step, step)|;
      assert |Strided(ids, index, step)| == n + 1 && (n + 1) * step == n * step + step
        && (n - 1) * step == n * step - step;
    }
  }

  function FoldAt(groups: Groups, field: GroupField, ids: seq<string>, step: nat, index: nat): Fold
    requires step > 0
  {
    FoldOn(groups, field, ids, Strided(ids, index, step))
  }

  function FoldOn(groups: Groups, field: GroupField, ids: seq<string>, test: seq<string>): Fold {
    var train := Without(ids, test);
    Fold(train, test, RunsUnder(groups, field, train), RunsUnder(groups, field, test))
  }

  function Without(ids: seq<string>, removed: seq<string>): (r: seq<string>)
    ensures forall x :: x in r <==> x in ids && x !in removed
  {
    if ids == [] then []
    else Without(ids[..|ids| - 1], removed) + if ids[|ids| - 1] in removed then [] else [ids[|ids| - 1]]
  }

  /** The folds of a plan: `ids` lists the groups once, `n` is the number of folds. */
  ghost predicate FoldsOver(groups: Groups, field: GroupField, ids: seq<string>, folds: seq<Fold>) {
    && Distinct(ids) && (forall x :: x in ids <==> x in Keys(groups, field))
    && 2 <= |folds| <= |ids|
    && forall i :: 0 <= i < |folds| ==> folds[i] == FoldAt(groups, field, ids, |folds|, i)
  }

  method DistinctListOf(s: set<string>) returns (r: seq<string>)
    ensures Distinct(r) && |r| == |s| && forall x :: x in r <==> x in s
  {
    var rest := s;
    r := [];
    while rest != {}
      invariant rest <= s && Distinct(r) && |r| + |rest| == |s|
      invariant forall x :: x in r <==> x in s && x !in rest
      decreases |rest|
    {
      var x :| x in rest;
      r, rest := r + [x], rest - {x};
    }
  }

  lemma OneStride(ids: seq<string>, index: nat)
    requires index < |ids|
    ensures Strided(ids, index, |ids|) == [ids[index]]
  {
  }

  lemma NoLeakage(groups: Groups, field: GroupField, train: seq<string>, test: seq<string>)
    requires forall x :: x in train ==> x !in test
    ensures RunsUnder(groups, field, train) * RunsUnder(groups, field, test) == {}
  {
  }

  /** The fold that tests on the given groups. */
  method BuildFold(groups: Groups, field: GroupField, ids: seq<string>, test: seq<string>)
    returns (r: Result<Fold, FoldError>)
    ensures r == Ok(FoldOn(groups, field, ids, test))
  {
    var train := Without(ids, test);
    NoLeakage(groups, field, train, test);
    var trainRuns, testRuns := RunsUnder(groups, field, train), RunsUnder(groups, field, test);
    if trainRuns * testRuns != {} { return Err(Leakage); }
    return Ok(Fold(train, test, trainRuns, testRuns));
  }

  /** The leakage error is never raised; the folds are refused exactly for too few groups or a fold count
      out of range. */
  method GroupCrossValidationFolds(groups: Groups, field: GroupField, mode: FoldMode)
    returns (r: Result<seq<Fold>, FoldError>)
    ensures r == Err(TooFewGroups) <==> |Keys(groups, field)| < 2
    ensures r == Err(BadSplitCount) <==>
      |Keys(groups, field)| >= 2 && mode.GroupKFold? && !(2 <= mode.splits <= |Keys(groups, field)|)
    ensures r != Err(Leakage)
    ensures r.Ok? ==> |r.value| == if mode.GroupKFold? then mode.splits else |Keys(groups, field)|
    ensures r.Ok? ==> exists ids :: FoldsOver(groups, field, ids, r.value)
  {
    var ids := DistinctListOf(Keys(groups, field));
    if |ids| < 2 { return Err(TooFewGroups); }
    if mode.GroupKFold? && !(2 <= mode.splits <= |ids|) { return Err(BadSplitCount); }
    var count: nat := if mode.GroupKFold? then mode.splits else |ids|;
    var folds: seq<Fold> := [];
    for index := 0 to count
      invariant |folds| == index && forall i :: 0 <= i < index ==> folds[i] == FoldAt(groups, field, ids, count, i)
    {
      if mode.LeaveOneGroupOut? { OneStride(ids, index); }
      var fold := BuildFold(groups, field, ids, if mode.GroupKFold? then Strided(ids, index, count) else [ids[index]]);
      if fold.Err? { return Err(Leakage); }
      folds := folds + [fold.value];
    }
    assert FoldsOver(groups, field, ids, folds);
    return Ok(folds);
  }

  // What the folds are worth

  lemma TestedExactly(groups: Groups, field: GroupField, ids: seq<string>, folds: seq<Fold>, i: nat, p: nat)
    requires FoldsOver(groups, field, ids, folds) && i < |folds| && p < |ids|
    ensures ids[p] in folds[i].testGroups <==> p % |folds| == i
  {
    StridedExactly(ids, i, |folds|, ids[p]);
    RemainderOfSmall(i, |folds|);
    if p % |folds| == i {
      RemainderNotAbove(p, |folds|);
      assert InStride(ids, i, |folds|, ids[p]);
    }
    if InStride(ids, i, |folds|, ids[p]) {
      var q :| i <= q < |ids| && q % |folds| == i % |folds| && ids[q] == ids[p];
      assert q == p;
    }
  }

  lemma RemainderOfSmall(i: nat, n: nat)
    requires i < n
    ensures i % n == i
  {
  }

  lemma RemainderNotAbove(p: nat, n: nat)
    requires n > 0
    ensures p % n <= p
  {
    assert p == p / n * n + p % n;
  }

  /** Every run is tested in exactly one fold, with its whole group; in every other fold it is trained on. */
  lemma EveryRunTestedOnce(groups: Groups, field: GroupField, ids: seq<string>, folds: seq<Fold>, run: RunId)
    requires FoldsOver(groups, field, ids, folds) && run in groups
    ensures exists i :: 0 <= i < |folds| && run in folds[i].testRuns
    ensures forall i, j :: 0 <= i < j < |folds| ==> !(run in folds[i].testRuns && run in folds[j].testRuns)
    ensures forall i :: 0 <= i < |folds| ==> (run in folds[i].trainRuns <==> run !in folds[i].testRuns)
  {
    var key := KeyOf(field, run, groups[run]);
    assert key in Keys(groups, field);
    var p: nat :| p < |ids| && ids[p] == key;
    forall i: nat | i < |folds|
      ensures run in folds[i].testRuns <==> i == p % |folds|
      ensures run in folds[i].trainRuns <==> i != p % |folds|
    {
      TestedExactly(groups, field, ids, folds, i, p);
    }
    assert run in folds[p % |folds|].testRuns;
  }

  /** No group is split, every fold tests and trains on something, and their group counts differ by at
      most one. */
  lemma FoldsAreSound(groups: Groups, field: GroupField, ids: seq<string>, folds: seq<Fold>, i: nat, j: nat)
    requires FoldsOver(groups, field, ids, folds) && i < |folds| && j < |folds|
    ensures forall r, s :: r in groups && s in groups && KeyOf(field, r, groups[r]) == KeyOf(field, s, groups[s]) ==>
      (r in folds[i].testRuns <==> s in folds[i].testRuns)
    ensures folds[i].testRuns != {} && folds[i].trainRuns != {}
    ensures |folds[i].testGroups| <= |folds[j].testGroups| + 1
  {
    TestedSomewhere(groups, field, ids, folds, i);
    TestedSomewhere(groups, field, ids, folds, if i == 0 then 1 else 0);
    var other := if i == 0 then 1 else 0;
    var run :| run in folds[other].testRuns;
    EveryRunTestedOnce(groups, field, ids, folds, run);
    assert run !in folds[i].testRuns;
    assert run in folds[i].trainRuns;
    FoldSizes(ids, i, j, |folds|);
  }

  lemma TestedSomewhere(groups: Groups, field: GroupField, ids: seq<string>, folds: seq<Fold>, i: nat)
    requires FoldsOver(groups, field, ids, folds) && i < |folds|
    ensures folds[i].testRuns != {}
  {
    TestedExactly(groups, field, ids, folds, i, i);
    RemainderOfSmall(i, |folds|);
    assert ids[i] in Keys(groups, field);
    var run :| run in groups && KeyOf(field, run, groups[run]) == ids[i];
    assert run in folds[i].testRuns;
  }

  lemma FoldSizes(ids: seq<string>, i: nat, j: nat, n: nat)
    requires i < n <= |ids| && j < n
    ensures |Strided(ids, i, n)| <= |Strided(ids, j, n)| + 1
  {
    StridedSize(ids, i, n);
    StridedSize(ids, j, n);
    var x, y := |Strided(ids, i, n)|, |Strided(ids, j, n)|;
    if x > y + 1 { Apart(x, y, n); }
  }

  lemma Apart(x: int, y: int, n: int)
    requires x >= y + 2 && n > 0
    ensures (x - 1) * n >= y * n + n
  {
    assert (x - 1) * n - y * n == (x - 1 - y) * n;
    MultipleOutside(x - 1 - y, n);
  }

  /** What a fold keeps together: sessions, families, or under `run_id` only the runs themselves. */
  predicate Related(field: GroupField, run: RunId, g: RunGroup, other: RunId, h: RunGroup) {
    && (field.ByRun? ==> run == other)
    && (field.BySession? ==> g.session == h.session)
    && (field.ByFamily? ==> g.family == h.family)
  }

  /** Related runs are tested together and trained on together. */
  lemma RelatedStayTogether(groups: Groups, field: GroupField, ids: seq<string>, folds: seq<Fold>, i: nat, run: RunId,
      other: RunId)
    requires FoldsOver(groups, field, ids, folds) && i < |folds|
    requires run in groups && other in groups && Related(field, run, groups[run], other, groups[other])
    ensures run in folds[i].testRuns <==> other in folds[i].testRuns
    ensures run in folds[i].trainRuns <==> other in folds[i].trainRuns
  {
    FoldsAreSound(groups, field, ids, folds, i, i);
    EveryRunTestedOnce(groups, field, ids, folds, run);
    EveryRunTestedOnce(groups, field, ids, folds, other);
  }

  /** Leaving one group out tests exactly the related runs together. */
  lemma OneGroupLeftOut(groups: Groups, field: GroupField, ids: seq<string>, folds: seq<Fold>, i: nat, run: RunId,
      other: RunId)
    requires FoldsOver(groups, field, ids, folds) && |folds| == |ids| && i < |folds|
    requires run in groups && other in groups && run in folds[i].testRuns
    ensures other in folds[i].testRuns <==> Related(field, run, groups[run], other, groups[other])
  {
    OneStride(ids, i);
  }
}
