/** What stops a call of a matrix: a foreign plan on file, and attempts that contradict the plan. */
module MatrixConflicts {
  import opened Common
  import opened Lists
  import opened Corpus
  import opened Matrices
  import opened MatrixRuns
  import opened MatrixInputs

  // The plan on file

  /** A plan on file is used only when resuming, and only the very plan of the matrix; a call on any other is
      refused and writes nothing. */
  lemma ForeignPlanIsRefused(m: Matrix, s: Store, call: Call)
    requires s.summaries == [] && s.plan.Some?
    requires !call.resume || s.plan.value != m.plan
    ensures AfterCall(m, s, call).0 == s && AfterCall(m, s, call).1.Err?
  {
  }

  // The attempts on file

  ghost predicate TwoAcceptable(attempts: seq<Attempt>, plan: PlannedRun) {
    exists i, j :: 0 <= i < j < |attempts| && Acceptable(attempts[i], plan) && Acceptable(attempts[j], plan)
  }

  /** Attempts of the plan contradict it: one was made under another configuration, or two may be taken over. */
  ghost predicate Conflict(attempts: seq<Attempt>, plan: PlannedRun) {
    || (exists i :: 0 <= i < |attempts| && attempts[i].planId == plan.planId && attempts[i].planned != plan.config)
    || TwoAcceptable(attempts, plan)
  }

  lemma AcceptableExactly(a: Attempt, plan: PlannedRun)
    ensures Acceptable(a, plan) <==> AcceptedId(plan)(a).Some?
  {
  }

  lemma {:induction false} SomeAccepted(attempts: seq<Attempt>, plan: PlannedRun)
    ensures AcceptedRuns(attempts, plan) != [] <==> exists i :: 0 <= i < |attempts| && Acceptable(attempts[i], plan)
  {
    if attempts != [] {
      var n := |attempts| - 1;
      SomeAccepted(attempts[..n], plan);
      AcceptableExactly(attempts[n], plan);
      assert forall i :: 0 <= i < n ==> attempts[..n][i] == attempts[i];
    }
  }

  lemma TwoAcceptableSnoc(attempts: seq<Attempt>, n: nat, plan: PlannedRun)
    requires |attempts| == n + 1
    ensures TwoAcceptable(attempts, plan) <==>
      || TwoAcceptable(attempts[..n], plan)
      || (Acceptable(attempts[n], plan) && exists i :: 0 <= i < n && Acceptable(attempts[..n][i], plan))
  {
    if i, j :| 0 <= i < j < |attempts| && Acceptable(attempts[i], plan) && Acceptable(attempts[j], plan) {
      assert attempts[..n][i] == attempts[i];
      if j < n { assert attempts[..n][j] == attempts[j]; }
    }
    if i, j :| 0 <= i < j < n && Acceptable(attempts[..n][i], plan) && Acceptable(attempts[..n][j], plan) {
      assert attempts[i] == attempts[..n][i] && attempts[j] == attempts[..n][j];
    }
    if Acceptable(attempts[n], plan) {
      if i :| 0 <= i < n && Acceptable(attempts[..n][i], plan) { assert attempts[i] == attempts[..n][i]; }
    }
  }

  lemma {:induction false} SeveralAccepted(attempts: seq<Attempt>, plan: PlannedRun)
    ensures |AcceptedRuns(attempts, plan)| > 1 <==> TwoAcceptable(attempts, plan)
  {
    if attempts != [] {
      var n := |attempts| - 1;
      SeveralAccepted(attempts[..n], plan);
      SomeAccepted(attempts[..n], plan);
      AcceptableExactly(attempts[n], plan);
      TwoAcceptableSnoc(attempts, n, plan);
    }
  }

  /** Looking for a run to take over fails exactly on such a contradiction. */
  lemma ConflictExactly(attempts: seq<Attempt>, plan: PlannedRun)
    ensures Settle(plan, attempts, true).Err? <==> Conflict(attempts, plan)
  {
    SeveralAccepted(attempts, plan);
  }

  // A call over such attempts

  lemma ConflictStays(attempts: seq<Attempt>, more: seq<Attempt>, plan: PlannedRun)
    requires Conflict(attempts, plan) && attempts <= more
    ensures Conflict(more, plan)
  {
    if i :| 0 <= i < |attempts| && attempts[i].planId == plan.planId && attempts[i].planned != plan.config {
      assert more[i].planId == plan.planId && more[i].planned != plan.config;
    } else {
      var i, j :| 0 <= i < j < |attempts| && Acceptable(attempts[i], plan) && Acceptable(attempts[j], plan);
      assert Acceptable(more[i], plan) && Acceptable(more[j], plan);
    }
  }

  /** Up to the contradicted plan the loop only adds attempts; from there on it has stopped. */
  ghost predicate HeldUp(attempts: seq<Attempt>, k: nat, s: Loop, j: nat) {
    attempts <= s.attempts && (j > k ==> s.stopped.Some?)
  }

  lemma NextHeldUp(attempts: seq<Attempt>, k: nat, plans: seq<PlannedRun>, s: Loop, j: nat, launches: seq<Launch>)
    requires k < |plans| && j < |plans| && Conflict(attempts, plans[k]) && HeldUp(attempts, k, s, j)
    ensures HeldUp(attempts, k, Next(s, plans[j], launches, true), j + 1)
  {
    if s.stopped.None? && j == k {
      ConflictStays(attempts, s.attempts, plans[k]);
      ConflictExactly(s.attempts, plans[k]);
    }
  }

  lemma LoopHeldUp(plans: seq<PlannedRun>, attempts: seq<Attempt>, launches: seq<Launch>, k: nat)
    requires k < |plans| && Conflict(attempts, plans[k])
    ensures VisitPlans(plans, |plans|, attempts, launches, true).stopped.Some?
  {
    var inv := (s: Loop, j: nat) => HeldUp(attempts, k, s, j);
    forall s: Loop, j: nat | j < |plans| && inv(s, j)
      ensures inv(Next(s, plans[j], launches, true), j + 1)
    {
      NextHeldUp(attempts, k, plans, s, j, launches);
    }
    LoopInduction(plans, |plans|, attempts, launches, true, inv);
  }

  lemma VisitAllHeldUp(m: Matrix, s: Store, call: Call, reference: Reference, k: nat)
    requires call.resume && k < |m.plan.plannedRuns| && Conflict(s.attempts, m.plan.plannedRuns[k])
    ensures var (s', r) := VisitAll(m, s, call, reference);
      r.Err? && s'.final == s.final && s'.summaries == s.summaries
  {
    LoopHeldUp(m.plan.plannedRuns, s.attempts, call.launches, k);
  }

  /** Whatever store a call resumes on, contradicting attempts of one planned run keep it from concluding. */
  lemma ConflictBlocks(m: Matrix, s: Store, call: Call, k: nat)
    requires call.resume && s.summaries == []
    requires k < |m.plan.plannedRuns| && Conflict(s.attempts, m.plan.plannedRuns[k])
    ensures var (s', r) := AfterCall(m, s, call);
      r.Err? && s'.final == s.final && s'.summaries == []
  {
    var s1 := s.(plan := if s.plan.Some? then s.plan else Some(m.plan));
    var sweep := Calibrate(s1.sweep, call).0;
    if sweep.Swept? { VisitAllHeldUp(m, s1.(sweep := sweep), call, sweep.reference, k); }
  }
}
