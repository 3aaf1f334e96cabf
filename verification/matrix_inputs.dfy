/** What a call of a matrix does, in terms of its inputs: which calibration lets it run, what it saves of an
    experiment, and what it makes of the runs on file. */
module MatrixInputs {
  import opened Common
  import opened Lists
  import opened Corpus
  import opened Matrices
  import opened MatrixRuns
  import opened MatrixLaws

  // The calibration

  /** Whether the calibration that decides this call supports going on: the saved one when resuming with a
      complete sweep, otherwise that of the call's own sweep. */
  predicate SupportedInEffect(s: Store, call: Call) {
    if call.resume && s.sweep.Swept? then s.sweep.supported
    else call.sweep.Done? && call.sweep.supported
  }

  /** Outside the smoke profile a call with an unsupported calibration, and in any profile one with an
      unverified calibration, ends in an error before anything is run or concluded. */
  lemma UnsupportedBlocks(m: Matrix, s: Store, call: Call)
    requires s.summaries == []
    requires !call.verified || (!m.smoke && !SupportedInEffect(s, call))
    ensures var (s', r) := AfterCall(m, s, call);
      r.Err? && s'.attempts == s.attempts && s'.final == s.final && s'.summaries == []
  {
  }

  /** The sweep on file lets experiments run. */
  predicate Calibrated(m: Matrix, s: Store) {
    s.sweep.Swept? && (m.smoke || s.sweep.supported)
  }

  /** Experiments, a final manifest and a summary beyond those of `s0` need a calibration that supports
      them, and a summary names it. */
  ghost predicate Licensed(m: Matrix, s0: Store, s: Store) {
    && (s.attempts != s0.attempts || s.final != s0.final || s.summaries != s0.summaries ==> Calibrated(m, s))
    && (s.summaries != [] ==> s.sweep.Swept? && s.summaries[0].final.calibration == Some(s.sweep.reference))
  }

  lemma VisitAllKeepsSweep(m: Matrix, s: Store, call: Call, reference: Reference)
    requires s.summaries == []
    ensures var (s', r) := VisitAll(m, s, call, reference);
      && s'.sweep == s.sweep && s'.plan == s.plan
      && (s'.summaries != [] ==> s'.summaries[0].final.calibration == Some(reference))
  {
  }

  lemma ProceedIsLicensed(m: Matrix, s0: Store, s: Store, call: Call)
    requires Licensed(m, s0, s) && s.summaries == []
    ensures Licensed(m, s0, Proceed(m, s, call).0)
  {
    var sweep := Calibrate(s.sweep, call).0;
    if sweep.Swept? { VisitAllKeepsSweep(m, s.(sweep := sweep), call, sweep.reference); }
  }

  lemma CallIsLicensed(m: Matrix, s0: Store, s: Store, call: Call)
    requires Licensed(m, s0, s)
    ensures Licensed(m, s0, AfterCall(m, s, call).0)
  {
    if s.summaries == [] {
      ProceedIsLicensed(m, s0, s.(plan := if s.plan.Some? then s.plan else Some(m.plan)), call);
    }
  }

  lemma {:induction false} PlayIsLicensed(m: Matrix, s0: Store, calls: seq<Call>)
    requires Fresh(m, s0)
    ensures Licensed(m, s0, Play(m, s0, calls))
  {
    if calls != [] {
      var n := |calls| - 1;
      PlayIsLicensed(m, s0, calls[..n]);
      CallIsLicensed(m, s0, Play(m, s0, calls[..n]), calls[n]);
    }
  }

  /** From a fresh store, whatever the calls: experiments, final manifest and summary are there only with a
      complete sweep on file that supports them (any complete sweep in the smoke profile), and the summary's
      manifest names the reference of that very sweep. */
  lemma NothingWithoutCalibration(m: Matrix, s0: Store, calls: seq<Call>)
    requires Fresh(m, s0)
    ensures var s := Play(m, s0, calls);
      && (s.attempts != s0.attempts || s.final.Some? || s.summaries != [] ==>
            s.sweep.Swept? && (m.smoke || s.sweep.supported))
      && (s.summaries != [] ==> s.summaries[0].final.calibration == Some(s.sweep.reference))
  {
    PlayIsLicensed(m, s0, calls);
  }

  // The resume test

  /** A completed run of the plan with valid participation and at least thirty measured seconds. */
  predicate Acceptable(a: Attempt, plan: PlannedRun) {
    && a.planId == plan.planId && a.status == Completed && a.participationValid
    && a.measuredSeconds.Some? && 30.0 <= a.measuredSeconds.value
  }

  lemma {:induction false} AcceptedRunsExactly(attempts: seq<Attempt>, plan: PlannedRun, id: string)
    ensures id in AcceptedRuns(attempts, plan)
            <==> exists i :: 0 <= i < |attempts| && attempts[i].runId == id && Acceptable(attempts[i], plan)
  {
    FilterMapHas(attempts, AcceptedId(plan), id);
    if i :| 0 <= i < |attempts| && attempts[i].runId == id && Acceptable(attempts[i], plan) {
      assert AcceptedId(plan)(attempts[i]) == Some(id);
    }
    if i :| 0 <= i < |attempts| && AcceptedId(plan)(attempts[i]) == Some(id) {
      assert attempts[i].runId == id && Acceptable(attempts[i], plan);
    }
  }

  // What a loop saves and decides

  /** The attempt is a faithful record of one of the launches, under this plan and its configuration. */
  ghost predicate Records(a: Attempt, plan: PlannedRun, launches: seq<Launch>) {
    && a.planId == plan.planId && a.planned == plan.config
    && exists j :: 0 <= j < |launches| && launches[j].Saved? && IsRecordOf(a, launches[j])
  }

  predicate IsRecordOf(a: Attempt, l: Launch)
    requires l.Saved?
  {
    && a.runId == l.runId && a.status == l.status && a.participationValid == l.participationValid
    && a.measuredSeconds == l.measuredSeconds
  }

  /** The slot of a plan that was taken over holds the run on file, which is its outcome. */
  ghost predicate TakenOver(before: seq<Attempt>, after: seq<Attempt>, plan: PlannedRun, run: PlannedRun,
      outcome: string) {
    && OwnAttempts(after, plan) == OwnAttempts(before, plan)
    && run.acceptedRunId == Some(outcome)
    && exists i :: 0 <= i < |before| && before[i].runId == outcome && Acceptable(before[i], plan)
  }

  /** The outcome of a plan that was run is the new run; its slot holds that exactly if it completed. */
  ghost predicate RunOnce(before: seq<Attempt>, after: seq<Attempt>, plan: PlannedRun, run: PlannedRun,
      outcome: string, launches: seq<Launch>) {
    exists a ::
      && OwnAttempts(after, plan) == OwnAttempts(before, plan) + [a]
      && Records(a, plan, launches) && a.runId == outcome
      && run.acceptedRunId == if a.status == Completed then Some(a.runId) else None
  }

  ghost predicate Decided(before: seq<Attempt>, after: seq<Attempt>, plan: PlannedRun, run: PlannedRun,
      outcome: string, launches: seq<Launch>, resume: bool)
  {
    if Takes(before, plan, resume) then TakenOver(before, after, plan, run, outcome)
    else RunOnce(before, after, plan, run, outcome, launches)
  }

  /** What the first `k` visits did for plan number `i`. */
  ghost predicate DecidedAfter(m: Matrix, k: nat, i: nat, before: seq<Attempt>, s: Loop, launches: seq<Launch>,
      resume: bool)
    requires i < |m.plan.plannedRuns|
  {
    && (s.stopped.None? ==> |s.runs| == |s.runIds| == k)
    && (k <= i ==> SameFor(before, s.attempts, m.plan.plannedRuns[i]))
    && (i < k && s.stopped.None? ==>
          Decided(before, s.attempts, m.plan.plannedRuns[i], s.runs[i], s.runIds[i], launches, resume))
  }

  lemma TakenFromFile(attempts: seq<Attempt>, plan: PlannedRun, id: string)
    requires Settle(plan, attempts, true) == Ok(Some(id))
    ensures Takes(attempts, plan, true)
    ensures exists i :: 0 <= i < |attempts| && attempts[i].runId == id && Acceptable(attempts[i], plan)
  {
    assert id in AcceptedRuns(attempts, plan);
    AcceptedRunsExactly(attempts, plan, id);
  }

  lemma RunIsRecorded(s: Loop, plan: PlannedRun, launches: seq<Launch>)
    requires s.used < |launches| && Run(s, plan, launches[s.used]).stopped.None?
    ensures var s' := Run(s, plan, launches[s.used]);
      && |s'.runs| == |s.runs| + 1 && |s'.runIds| == |s.runIds| + 1
      && RunOnce(s.attempts, s'.attempts, plan, s'.runs[|s.runs|], s'.runIds[|s.runIds|], launches)
  {
    var a := AttemptAt(plan, launches[s.used]);
    SavedForOwn(s.attempts, a, plan);
    assert IsRecordOf(a, launches[s.used]);
  }

  /** The visit of the plan itself. */
  lemma OwnVisitDecides(s: Loop, plan: PlannedRun, launches: seq<Launch>, resume: bool)
    requires s.stopped.None? && Visit(s, plan, launches, resume).stopped.None?
    ensures var s' := Visit(s, plan, launches, resume);
      && |s'.runs| == |s.runs| + 1 && |s'.runIds| == |s.runIds| + 1
      && Decided(s.attempts, s'.attempts, plan, s'.runs[|s.runs|], s'.runIds[|s.runIds|], launches, resume)
  {
    var settled := Settle(plan, s.attempts, resume);
    if settled.value.Some? {
      TakenFromFile(s.attempts, plan, settled.value.value);
    } else {
      RunIsRecorded(s, plan, launches);
    }
  }

  lemma VisitAppends(s: Loop, plan: PlannedRun, launches: seq<Launch>, resume: bool)
    requires s.stopped.None? && Visit(s, plan, launches, resume).stopped.None?
    ensures var s' := Visit(s, plan, launches, resume);
      && |s'.runs| == |s.runs| + 1 && s'.runs[..|s.runs|] == s.runs
      && |s'.runIds| == |s.runIds| + 1 && s'.runIds[..|s.runIds|] == s.runIds
  {
  }

  lemma DecidedBySame(before: seq<Attempt>, middle: seq<Attempt>, after: seq<Attempt>, plan: PlannedRun,
      run: PlannedRun, outcome: string, launches: seq<Launch>, resume: bool)
    requires Decided(before, middle, plan, run, outcome, launches, resume) && SameFor(middle, after, plan)
    ensures Decided(before, after, plan, run, outcome, launches, resume)
  {
  }

  lemma DecidedFromSame(before: seq<Attempt>, middle: seq<Attempt>, after: seq<Attempt>, plan: PlannedRun,
      run: PlannedRun, outcome: string, launches: seq<Launch>, resume: bool)
    requires SameFor(before, middle, plan) && Decided(middle, after, plan, run, outcome, launches, resume)
    ensures Decided(before, after, plan, run, outcome, launches, resume)
  {
    if Takes(before, plan, resume) {
      AcceptedRunsExactly(middle, plan, outcome);
      AcceptedRunsExactly(before, plan, outcome);
    }
  }

  lemma NextDecided(m: Matrix, k: nat, i: nat, before: seq<Attempt>, s: Loop, launches: seq<Launch>, resume: bool)
    requires ValidMatrix(m) && k < |m.plan.plannedRuns| && i < |m.plan.plannedRuns|
    requires DecidedAfter(m, k, i, before, s, launches, resume)
    ensures DecidedAfter(m, k + 1, i, before, Next(s, m.plan.plannedRuns[k], launches, resume), launches, resume)
  {
    var plans := m.plan.plannedRuns;
    if s.stopped.None? {
      var s' := Visit(s, plans[k], launches, resume);
      if i != k {
        PlansApart(m, i, k);
        VisitOther(s, plans[k], plans[i], launches, resume);
      }
      if s'.stopped.None? {
        VisitAppends(s, plans[k], launches, resume);
        if i == k {
          OwnVisitDecides(s, plans[k], launches, resume);
          DecidedFromSame(before, s.attempts, s'.attempts, plans[k], s'.runs[k], s'.runIds[k], launches, resume);
        } else if i < k {
          assert s'.runs[i] == s.runs[i] && s'.runIds[i] == s.runIds[i];
          DecidedBySame(before, s.attempts, s'.attempts, plans[i], s.runs[i], s.runIds[i], launches, resume);
        }
      }
    }
  }

  /** A loop that goes through decides every slot by its inputs: a plan with an acceptable run on file keeps
      it when resuming; every other plan is launched once, the saved attempt records that launch, and the
      slot is filled exactly if it completed. */
  lemma LoopDecides(m: Matrix, i: nat, attempts: seq<Attempt>, launches: seq<Launch>, resume: bool)
    requires ValidMatrix(m) && i < |m.plan.plannedRuns|
    requires VisitPlans(m.plan.plannedRuns, |m.plan.plannedRuns|, attempts, launches, resume).stopped.None?
    ensures var loop := VisitPlans(m.plan.plannedRuns, |m.plan.plannedRuns|, attempts, launches, resume);
      |loop.runs| == |loop.runIds| == |m.plan.plannedRuns|
      && Decided(attempts, loop.attempts, m.plan.plannedRuns[i], loop.runs[i], loop.runIds[i], launches, resume)
  {
    var plans := m.plan.plannedRuns;
    var inv := (s: Loop, j: nat) => DecidedAfter(m, j, i, attempts, s, launches, resume);
    forall s: Loop, j: nat | j < |plans| && inv(s, j)
      ensures inv(Next(s, plans[j], launches, resume), j + 1)
    {
      NextDecided(m, j, i, attempts, s, launches, resume);
    }
    LoopInduction(plans, |plans|, attempts, launches, resume, inv);
  }

  lemma ConcludedSlots(m: Matrix, s: Store, call: Call, reference: Reference, i: nat)
    requires ValidMatrix(m) && s.summaries == [] && i < |m.plan.plannedRuns|
    requires VisitAll(m, s, call, reference).1.Ok?
    ensures var (s', r) := VisitAll(m, s, call, reference);
      |r.value.final.plannedRuns| == |r.value.runIds| == |m.plan.plannedRuns|
      && Decided(s.attempts, s'.attempts, m.plan.plannedRuns[i], r.value.final.plannedRuns[i], r.value.runIds[i],
        call.launches, call.resume)
  {
    LoopDecides(m, i, s.attempts, call.launches, call.resume);
  }

  /** The summary a call writes is decided like that, slot by slot. */
  lemma SummaryIsDecided(m: Matrix, s: Store, call: Call, i: nat)
    requires ValidMatrix(m) && s.summaries == [] && i < |m.plan.plannedRuns| && AfterCall(m, s, call).1.Ok?
    ensures var (s', r) := AfterCall(m, s, call);
      |r.value.final.plannedRuns| == |r.value.runIds| == |m.plan.plannedRuns|
      && Decided(s.attempts, s'.attempts, m.plan.plannedRuns[i], r.value.final.plannedRuns[i], r.value.runIds[i],
        call.launches, call.resume)
  {
    var s1 := s.(plan := if s.plan.Some? then s.plan else Some(m.plan));
    var sweep := Calibrate(s1.sweep, call).0;
    ConcludedSlots(m, s1.(sweep := sweep), call, sweep.reference, i);
  }
}
