/** What a validated split plan guarantees, in terms of the runs and their partitions. */
module SplitChecks {
  import opened Common
  import opened Splits
  import opened SplitPlans

  ghost predicate HasClassIn(groups: Groups, a: Assignments, target: string, split: Split) {
    exists r :: r in groups && r in a && a[r] == split && groups[r].target == target
  }

  ghost predicate HasFamilyIn(groups: Groups, a: Assignments, family: string, split: Split) {
    exists r :: r in groups && r in a && a[r] == split && groups[r].family == family
  }

  /** The split sees the class of every run, and every required family. */
  ghost predicate SeesAll(groups: Groups, required: set<string>, a: Assignments, split: Split) {
    && (forall r :: r in groups ==> HasClassIn(groups, a, groups[r].target, split))
    && (forall f :: f in required ==> HasFamilyIn(groups, a, f, split))
  }

  ghost predicate AllSeeAll(groups: Groups, required: set<string>, a: Assignments) {
    SeesAll(groups, required, a, Train) && SeesAll(groups, required, a, Validation)
    && SeesAll(groups, required, a, Test)
  }

  lemma SplitExactly(groups: Groups, required: set<string>, a: Assignments, split: Split)
    ensures SeesAll(groups, required, a, split)
            <==> ClassesIn(groups, a, split) == ExpectedClasses(groups) && required <= FamiliesIn(groups, a, split)
  {
    forall c
      ensures c in ClassesIn(groups, a, split) <==> HasClassIn(groups, a, c, split)
    {
    }
    forall f
      ensures f in FamiliesIn(groups, a, split) <==> HasFamilyIn(groups, a, f, split)
    {
    }
    if SeesAll(groups, required, a, split) {
      forall c
        ensures c in ClassesIn(groups, a, split) <==> c in ExpectedClasses(groups)
      {
      }
    }
    if ClassesIn(groups, a, split) == ExpectedClasses(groups) {
      forall r | r in groups
        ensures HasClassIn(groups, a, groups[r].target, split)
      {
        assert groups[r].target in ExpectedClasses(groups);
      }
    }
  }

  lemma CoverageExactly(groups: Groups, required: set<string>, a: Assignments)
    ensures CoversClasses(groups, a) && CoversFamilies(groups, a, required) <==> AllSeeAll(groups, required, a)
  {
    SplitExactly(groups, required, a, Train);
    SplitExactly(groups, required, a, Validation);
    SplitExactly(groups, required, a, Test);
    assert Train in SPLITS && Validation in SPLITS && Test in SPLITS;
    assert forall split :: split in SPLITS ==> split == Train || split == Validation || split == Test;
  }

  ghost predicate TwoClasses(groups: Groups) {
    exists r1, r2 :: r1 in groups && r2 in groups && groups[r1].target != groups[r2].target
  }

  lemma TwoClassesExactly(groups: Groups)
    ensures TwoClasses(groups) <==> |ExpectedClasses(groups)| >= 2
  {
    var classes := ExpectedClasses(groups);
    if TwoClasses(groups) {
      var r1, r2 :| r1 in groups && r2 in groups && groups[r1].target != groups[r2].target;
      var two := {groups[r1].target, groups[r2].target};
      assert two <= classes && |two| == 2;
      assert |classes| == |classes - two| + 2;
    }
    if |classes| >= 2 {
      var c :| c in classes;
      assert |classes - {c}| == |classes| - 1;
      var d :| d in classes - {c};
      var r1 :| r1 in groups && groups[r1].target == c;
      var r2 :| r2 in groups && groups[r2].target == d;
    }
  }

  /** The final checks pass exactly if every run is placed and no other, there are two classes, and each
      partition sees every class and every required family. */
  lemma FinalizesExactly(groups: Groups, required: set<string>, a: Assignments)
    requires groups != map[]
    ensures Finalize(groups, a, required) == None
            <==> a.Keys == groups.Keys && TwoClasses(groups) && AllSeeAll(groups, required, a)
  {
    CoverageExactly(groups, required, a);
    TwoClassesExactly(groups);
    if a.Keys == groups.Keys && AllSeeAll(groups, required, a) { SoundPlanPasses(groups, required, a); }
  }

  /** A sound plan places every run and shows every partition every class and required family. */
  lemma SoundExactly(groups: Groups, required: set<string>, a: Assignments)
    ensures SoundPlan(groups, required, a) <==> a.Keys == groups.Keys && AllSeeAll(groups, required, a)
  {
    CoverageExactly(groups, required, a);
  }

  // Session holdouts

  /** One session is tested on, another one validated on, all others are trained on. */
  predicate HoldsOut(groups: Groups, a: Assignments, test: string, validation: string) {
    && test != validation && a.Keys == groups.Keys
    && forall r :: r in groups && r in a ==>
         && (a[r] == Test <==> groups[r].session == test)
         && (a[r] == Validation <==> groups[r].session == validation)
  }

  /** A holdout by sessions is an assignment of that kind from which every partition sees everything. */
  lemma HoldoutExactly(groups: Groups, required: set<string>, test: string, validation: string, a: Assignments)
    requires groups != map[]
    ensures IsHoldout(groups, required, test, validation) && a == SessionSplit(groups, test, validation)
            <==> HoldsOut(groups, a, test, validation) && AllSeeAll(groups, required, a)
  {
    CoverageExactly(groups, required, a);
    if HoldsOut(groups, a, test, validation) && AllSeeAll(groups, required, a) {
      var r :| r in groups;
      var t :| t in groups && t in a && a[t] == Test && groups[t].target == groups[r].target;
      var v :| v in groups && v in a && a[v] == Validation && groups[v].target == groups[r].target;
      assert groups[t].session in Sessions(groups) && groups[v].session in Sessions(groups);
      SameSplit(groups, a, test, validation);
    }
  }

  lemma SameSplit(groups: Groups, a: Assignments, test: string, validation: string)
    requires HoldsOut(groups, a, test, validation)
    ensures a == SessionSplit(groups, test, validation)
  {
    forall r | r in groups
      ensures a[r] == SessionSplit(groups, test, validation)[r]
    {
    }
  }

  /** Sessions can be held out exactly if some assignment of whole sessions lets every partition see
      everything. */
  lemma HoldoutExistsExactly(groups: Groups, required: set<string>)
    requires groups != map[]
    ensures HoldoutExists(groups, required)
            <==> exists a, test, validation :: HoldsOut(groups, a, test, validation) && AllSeeAll(groups, required, a)
  {
    if test, validation :| IsHoldout(groups, required, test, validation) {
      HoldoutExactly(groups, required, test, validation, SessionSplit(groups, test, validation));
    }
    if a, test, validation :| HoldsOut(groups, a, test, validation) && AllSeeAll(groups, required, a) {
      HoldoutExactly(groups, required, test, validation, a);
    }
  }
}
