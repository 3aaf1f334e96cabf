/** A matrix over any number of crashed, failed and resumed calls. */
module MatrixRuns {
  import opened Common
  import opened Lists
  import opened Corpus
  import opened Matrices

  ghost predicate ValidMatrix(m: Matrix) {
    Validate(m.plan).None?
  }

  /** What the outside world always supplies: sound calibration references and non-empty run ids. */
  ghost predicate SoundCall(c: Call) {
    && (c.sweep.Done? ==> ReferenceProblem(c.sweep.reference).None?)
    && SoundLaunches(c.launches)
  }

  ghost predicate SoundLaunches(launches: seq<Launch>) {
    forall k :: 0 <= k < |launches| && launches[k].Saved? ==> launches[k].runId != ""
  }

  ghost predicate SoundCalls(calls: seq<Call>) {
    forall k :: 0 <= k < |calls| ==> SoundCall(calls[k])
  }

  // What every call keeps

  function OwnAttempts(attempts: seq<Attempt>, plan: PlannedRun): seq<Attempt> {
    FilterMap(attempts, Own(plan))
  }

  function Own(plan: PlannedRun): Attempt -> Option<Attempt> {
    (a: Attempt) => if BelongsTo(a, plan) then Some(a) else None
  }

  ghost predicate UniqueRuns(attempts: seq<Attempt>) {
    Distinct(RunIds(attempts)) && "" !in RunIds(attempts)
  }

  /** The attempts of a plan are its own configuration's, and resuming finds at most one to take over. */
  ghost predicate Clean(attempts: seq<Attempt>, plan: PlannedRun) {
    !Mismatched(attempts, plan) && |AcceptedRuns(attempts, plan)| <= 1
  }

  ghost predicate AllClean(attempts: seq<Attempt>, plans: seq<PlannedRun>) {
    forall i :: 0 <= i < |plans| ==> Clean(attempts, plans[i])
  }

  ghost predicate Untried(attempts: seq<Attempt>, plans: seq<PlannedRun>, from: int) {
    forall i :: 0 <= i < |plans| && from <= i ==> OwnAttempts(attempts, plans[i]) == []
  }

  ghost predicate HasCompleted(attempts: seq<Attempt>, plan: PlannedRun, runId: string) {
    exists i :: 0 <= i < |attempts| && BelongsTo(attempts[i], plan) && attempts[i].runId == runId
      && attempts[i].status == Completed
  }

  /** A filled slot holds a completed run of its own plan, and the run that resuming takes over if any. */
  ghost predicate Answers(attempts: seq<Attempt>, plan: PlannedRun, run: PlannedRun) {
    && run == plan.(acceptedRunId := run.acceptedRunId)
    && (run.acceptedRunId.Some? ==> HasCompleted(attempts, plan, run.acceptedRunId.value))
    && (AcceptedRuns(attempts, plan) != [] ==> run.acceptedRunId == Some(AcceptedRuns(attempts, plan)[0]))
  }

  ghost predicate AllAnswer(attempts: seq<Attempt>, plans: seq<PlannedRun>, runs: seq<PlannedRun>) {
    |runs| <= |plans| && forall i :: 0 <= i < |runs| ==> Answers(attempts, plans[i], runs[i])
  }

  ghost predicate Records(m: Matrix, s: Store) {
    && UniqueRuns(s.attempts)
    && AllClean(s.attempts, m.plan.plannedRuns)
    && (s.plan.None? ==> Untried(s.attempts, m.plan.plannedRuns, 0))
  }

  ghost predicate Files(m: Matrix, s: Store) {
    && (s.plan.None? ==> s.final.None?)
    && (s.plan.Some? ==> s.plan.value == m.plan)
    && (s.sweep.Swept? ==> ReferenceProblem(s.sweep.reference).None?)
    && (s.final.Some? ==> Validate(s.final.value).None? && |s.final.value.plannedRuns| == |m.plan.plannedRuns|)
  }

  ghost predicate Conclusions(m: Matrix, s: Store) {
    && |s.summaries| <= 1
    && (s.summaries != [] ==> s.final == Some(s.summaries[0].final))
    && (s.summaries != [] ==> AllAnswer(s.attempts, m.plan.plannedRuns, s.summaries[0].final.plannedRuns))
  }

  ghost predicate Inv(m: Matrix, s: Store) {
    Records(m, s) && Files(m, s) && Conclusions(m, s)
  }

  // Saving one more attempt

  lemma SavedForOther(attempts: seq<Attempt>, a: Attempt, plan: PlannedRun)
    requires !BelongsTo(a, plan)
    ensures AcceptedRuns(attempts + [a], plan) == AcceptedRuns(attempts, plan)
    ensures OwnAttempts(attempts + [a], plan) == OwnAttempts(attempts, plan)
    ensures Mismatched(attempts + [a], plan) == Mismatched(attempts, plan)
  {
    FilterMapSnoc(attempts, a, AcceptedId(plan));
    FilterMapSnoc(attempts, a, Own(plan));
    MismatchSnoc(attempts, a, plan);
  }

  lemma MismatchSnoc(attempts: seq<Attempt>, a: Attempt, plan: PlannedRun)
    ensures Mismatched(attempts + [a], plan) <==>
      Mismatched(attempts, plan) || (BelongsTo(a, plan) && a.planned != plan.config)
  {
    var all := attempts + [a];
    if Mismatched(attempts, plan) {
      var i :| 0 <= i < |attempts| && BelongsTo(attempts[i], plan) && attempts[i].planned != plan.config;
      assert all[i] == attempts[i];
    }
    assert all[|attempts|] == a;
  }

  lemma SavedForOwn(attempts: seq<Attempt>, a: Attempt, plan: PlannedRun)
    requires BelongsTo(a, plan) && a.planned == plan.config
    ensures AcceptedRuns(attempts + [a], plan)
            == AcceptedRuns(attempts, plan) + if MeetsResumeTest(a) then [a.runId] else []
    ensures OwnAttempts(attempts + [a], plan) == OwnAttempts(attempts, plan) + [a]
    ensures Mismatched(attempts + [a], plan) == Mismatched(attempts, plan)
  {
    FilterMapSnoc(attempts, a, AcceptedId(plan));
    FilterMapSnoc(attempts, a, Own(plan));
    MismatchSnoc(attempts, a, plan);
  }

  lemma CompletedStays(attempts: seq<Attempt>, a: Attempt, plan: PlannedRun, runId: string)
    requires HasCompleted(attempts, plan, runId)
    ensures HasCompleted(attempts + [a], plan, runId)
  {
    var i :| 0 <= i < |attempts| && BelongsTo(attempts[i], plan) && attempts[i].runId == runId
      && attempts[i].status == Completed;
    assert (attempts + [a])[i] == attempts[i];
  }

  lemma UniqueStays(attempts: seq<Attempt>, a: Attempt)
    requires UniqueRuns(attempts) && a.runId != "" && a.runId !in RunIds(attempts)
    ensures UniqueRuns(attempts + [a])
  {
    assert RunIds(attempts + [a]) == RunIds(attempts) + [a.runId];
  }

  lemma {:induction false} AcceptedAreCompleted(attempts: seq<Attempt>, plan: PlannedRun)
    ensures forall id :: id in AcceptedRuns(attempts, plan) ==> HasCompleted(attempts, plan, id)
  {
    if attempts != [] {
      var n := |attempts| - 1;
      var init, a := attempts[..n], attempts[n];
      assert attempts == init + [a];
      AcceptedAreCompleted(init, plan);
      FilterMapSnoc(init, a, AcceptedId(plan));
      forall id | id in AcceptedRuns(attempts, plan)
        ensures HasCompleted(attempts, plan, id)
      {
        if id in AcceptedRuns(init, plan) { CompletedStays(init, a, plan, id); } else { assert attempts[n] == a; }
      }
    }
  }

  lemma {:induction false} AcceptedAreOwn(attempts: seq<Attempt>, plan: PlannedRun)
    ensures OwnAttempts(attempts, plan) == [] ==> AcceptedRuns(attempts, plan) == []
  {
    if attempts != [] { AcceptedAreOwn(attempts[..|attempts| - 1], plan); }
  }

  /** The plan ids of a valid manifest tell its slots apart. */
  lemma PlansApart(m: Matrix, i: nat, j: nat)
    requires ValidMatrix(m) && i < |m.plan.plannedRuns| && j < |m.plan.plannedRuns| && i != j
    ensures m.plan.plannedRuns[i].planId != m.plan.plannedRuns[j].planId
  {
    var ids := PlanIds(m.plan.plannedRuns);
    NoRepeatsMeansDistinct(ids);
    assert ids[i] != ids[j];
  }

  // One visit of the loop

  /** What the loop keeps after `k` plans. */
  ghost predicate LoopInv(m: Matrix, s: Loop, k: nat, resume: bool) {
    && k <= |m.plan.plannedRuns|
    && UniqueRuns(s.attempts)
    && AllClean(s.attempts, m.plan.plannedRuns)
    && AllAnswer(s.attempts, m.plan.plannedRuns, s.runs)
    && (!resume ==> Untried(s.attempts, m.plan.plannedRuns, k))
    && (s.stopped.None? ==> |s.runs| == k)
    && s.stopped in {None, Some(Crashed), Some(RunDirectoryExists)}
  }

  lemma CleanAfterSave(m: Matrix, attempts: seq<Attempt>, k: nat, a: Attempt)
    requires ValidMatrix(m) && k < |m.plan.plannedRuns| && AllClean(attempts, m.plan.plannedRuns)
    requires BelongsTo(a, m.plan.plannedRuns[k]) && a.planned == m.plan.plannedRuns[k].config
    requires AcceptedRuns(attempts, m.plan.plannedRuns[k]) == []
    ensures AllClean(attempts + [a], m.plan.plannedRuns)
  {
    var plans := m.plan.plannedRuns;
    forall i: nat | i < |plans|
      ensures Clean(attempts + [a], plans[i])
    {
      assert Clean(attempts, plans[i]);
      if i == k { SavedForOwn(attempts, a, plans[k]); } else {
        PlansApart(m, i, k);
        SavedForOther(attempts, a, plans[i]);
      }
    }
  }

  lemma UntriedAfterSave(m: Matrix, attempts: seq<Attempt>, k: nat, a: Attempt)
    requires ValidMatrix(m) && k < |m.plan.plannedRuns| && Untried(attempts, m.plan.plannedRuns, k)
    requires BelongsTo(a, m.plan.plannedRuns[k])
    ensures Untried(attempts + [a], m.plan.plannedRuns, k + 1)
  {
    var plans := m.plan.plannedRuns;
    forall i: nat | k + 1 <= i < |plans|
      ensures OwnAttempts(attempts + [a], plans[i]) == []
    {
      PlansApart(m, i, k);
      SavedForOther(attempts, a, plans[i]);
    }
  }

  lemma AnswersAfterSave(m: Matrix, attempts: seq<Attempt>, runs: seq<PlannedRun>, k: nat, a: Attempt)
    requires ValidMatrix(m) && k < |m.plan.plannedRuns| && |runs| <= k
    requires AllAnswer(attempts, m.plan.plannedRuns, runs)
    requires BelongsTo(a, m.plan.plannedRuns[k])
    ensures AllAnswer(attempts + [a], m.plan.plannedRuns, runs)
  {
    var plans := m.plan.plannedRuns;
    forall i: nat | i < |runs|
      ensures Answers(attempts + [a], plans[i], runs[i])
    {
      assert Answers(attempts, plans[i], runs[i]);
      PlansApart(m, i, k);
      SavedForOther(attempts, a, plans[i]);
      if runs[i].acceptedRunId.Some? { CompletedStays(attempts, a, plans[i], runs[i].acceptedRunId.value); }
    }
  }

  lemma OneMoreAnswer(attempts: seq<Attempt>, plans: seq<PlannedRun>, runs: seq<PlannedRun>, run: PlannedRun)
    requires |runs| < |plans| && AllAnswer(attempts, plans, runs) && Answers(attempts, plans[|runs|], run)
    ensures AllAnswer(attempts, plans, runs + [run])
  {
  }

  lemma TakeOverKeeps(m: Matrix, s: Loop, k: nat, id: string)
    requires k < |m.plan.plannedRuns| && LoopInv(m, s, k, true) && s.stopped.None?
    requires Settle(m.plan.plannedRuns[k], s.attempts, true) == Ok(Some(id))
    ensures LoopInv(m, TakeOver(s, m.plan.plannedRuns[k], id), k + 1, true)
  {
    var plan := m.plan.plannedRuns[k];
    AcceptedAreCompleted(s.attempts, plan);
    assert AcceptedRuns(s.attempts, plan)[0] == id;
    var run := plan.(acceptedRunId := Some(id));
    assert Answers(s.attempts, plan, run);
    OneMoreAnswer(s.attempts, m.plan.plannedRuns, s.runs, run);
  }

  lemma NewRunAnswers(attempts: seq<Attempt>, plan: PlannedRun, a: Attempt, id: Option<string>)
    requires AcceptedRuns(attempts, plan) == [] && BelongsTo(a, plan) && a.planned == plan.config
    requires id == if a.status == Completed then Some(a.runId) else None
    ensures Answers(attempts + [a], plan, plan.(acceptedRunId := id))
  {
    SavedForOwn(attempts, a, plan);
    assert (attempts + [a])[|attempts|] == a;
  }

  lemma RunKeeps(m: Matrix, s: Loop, k: nat, launch: Launch, resume: bool)
    requires ValidMatrix(m) && k < |m.plan.plannedRuns| && LoopInv(m, s, k, resume) && s.stopped.None?
    requires AcceptedRuns(s.attempts, m.plan.plannedRuns[k]) == []
    requires launch.Saved? ==> launch.runId != ""
    ensures LoopInv(m, Run(s, m.plan.plannedRuns[k], launch), k + 1, resume)
  {
    var plan := m.plan.plannedRuns[k];
    if launch.Saved? && launch.runId !in RunIds(s.attempts) {
      var a := AttemptAt(plan, launch);
      UniqueStays(s.attempts, a);
      CleanAfterSave(m, s.attempts, k, a);
      AnswersAfterSave(m, s.attempts, s.runs, k, a);
      if !resume { UntriedAfterSave(m, s.attempts, k, a); }
      var id := if a.status == Completed then Some(a.runId) else None;
      NewRunAnswers(s.attempts, plan, a, id);
      OneMoreAnswer(s.attempts + [a], m.plan.plannedRuns, s.runs, plan.(acceptedRunId := id));
    }
  }

  lemma StopKeeps(m: Matrix, s: Loop, k: nat, resume: bool)
    requires k < |m.plan.plannedRuns| && LoopInv(m, s, k, resume) && s.stopped.Some?
    ensures LoopInv(m, s, k + 1, resume)
  {
  }

  lemma NothingToTakeOver(m: Matrix, s: Loop, k: nat, resume: bool)
    requires k < |m.plan.plannedRuns| && LoopInv(m, s, k, resume)
    ensures var r := Settle(m.plan.plannedRuns[k], s.attempts, resume);
      r.Ok? && (r.value.None? ==> AcceptedRuns(s.attempts, m.plan.plannedRuns[k]) == []) && (r.value.Some? ==> resume)
  {
    var plan := m.plan.plannedRuns[k];
    assert Clean(s.attempts, plan);
    if !resume {
      assert OwnAttempts(s.attempts, plan) == [];
      AcceptedAreOwn(s.attempts, plan);
    }
  }

  lemma VisitKeeps(m: Matrix, s: Loop, k: nat, launches: seq<Launch>, resume: bool)
    requires ValidMatrix(m) && k < |m.plan.plannedRuns| && LoopInv(m, s, k, resume) && s.stopped.None?
    requires SoundLaunches(launches)
    ensures LoopInv(m, Visit(s, m.plan.plannedRuns[k], launches, resume), k + 1, resume)
  {
    var plan := m.plan.plannedRuns[k];
    NothingToTakeOver(m, s, k, resume);
    var settled := Settle(plan, s.attempts, resume);
    if settled.value.Some? {
      TakeOverKeeps(m, s, k, settled.value.value);
    } else if s.used >= |launches| {
      StopKeeps(m, s.(stopped := Some(Crashed)), k, resume);
    } else {
      RunKeeps(m, s, k, launches[s.used], resume);
    }
  }

  lemma NextKeeps(m: Matrix, s: Loop, k: nat, launches: seq<Launch>, resume: bool)
    requires ValidMatrix(m) && k < |m.plan.plannedRuns| && LoopInv(m, s, k, resume)
    requires SoundLaunches(launches)
    ensures LoopInv(m, Next(s, m.plan.plannedRuns[k], launches, resume), k + 1, resume)
  {
    if s.stopped.Some? { StopKeeps(m, s, k, resume); } else { VisitKeeps(m, s, k, launches, resume); }
  }

  lemma LoopStarts(m: Matrix, attempts: seq<Attempt>, resume: bool)
    requires UniqueRuns(attempts) && AllClean(attempts, m.plan.plannedRuns)
    requires !resume ==> Untried(attempts, m.plan.plannedRuns, 0)
    ensures LoopInv(m, Loop(attempts, 0, [], [], 0, 0, None), 0, resume)
  {
  }

  /** Induction over the visits: what holds at the start and survives each visit holds after `k` of them. */
  lemma {:induction false} LoopInduction(
      plans: seq<PlannedRun>, k: nat, attempts: seq<Attempt>, launches: seq<Launch>, resume: bool,
      inv: (Loop, nat) -> bool)
    requires k <= |plans|
    requires inv(Loop(attempts, 0, [], [], 0, 0, None), 0)
    requires forall s: Loop, j: nat :: j < k && inv(s, j) ==> inv(Next(s, plans[j], launches, resume), j + 1)
    ensures inv(VisitPlans(plans, k, attempts, launches, resume), k)
  {
    if k > 0 { LoopInduction(plans, k - 1, attempts, launches, resume, inv); }
  }

  lemma LoopKeeps(m: Matrix, k: nat, attempts: seq<Attempt>, launches: seq<Launch>, resume: bool)
    requires ValidMatrix(m) && k <= |m.plan.plannedRuns| && SoundLaunches(launches)
    requires UniqueRuns(attempts) && AllClean(attempts, m.plan.plannedRuns)
    requires !resume ==> Untried(attempts, m.plan.plannedRuns, 0)
    ensures LoopInv(m, VisitPlans(m.plan.plannedRuns, k, attempts, launches, resume), k, resume)
  {
    var inv := (s: Loop, j: nat) => LoopInv(m, s, j, resume);
    LoopStarts(m, attempts, resume);
    forall s: Loop, j: nat | j < k && inv(s, j)
      ensures inv(Next(s, m.plan.plannedRuns[j], launches, resume), j + 1)
    {
      NextKeeps(m, s, j, launches, resume);
    }
    LoopInduction(m.plan.plannedRuns, k, attempts, launches, resume, inv);
  }

  // The final manifest of a loop

  lemma SameRunSamePlan(attempts: seq<Attempt>, p: PlannedRun, q: PlannedRun, runId: string)
    requires UniqueRuns(attempts) && HasCompleted(attempts, p, runId) && HasCompleted(attempts, q, runId)
    ensures p.planId == q.planId && runId != ""
  {
    var i :| 0 <= i < |attempts| && BelongsTo(attempts[i], p) && attempts[i].runId == runId;
    var j :| 0 <= j < |attempts| && BelongsTo(attempts[j], q) && attempts[j].runId == runId;
    var ids := RunIds(attempts);
    assert ids[i] == ids[j] == runId;
  }

  lemma AnswersShareNoRun(m: Matrix, attempts: seq<Attempt>, runs: seq<PlannedRun>)
    requires ValidMatrix(m) && UniqueRuns(attempts)
    requires AllAnswer(attempts, m.plan.plannedRuns, runs) && |runs| == |m.plan.plannedRuns|
    ensures NoSharedRun(runs) && Fills(m.plan.plannedRuns, runs)
    ensures forall i :: 0 <= i < |runs| ==> runs[i].acceptedRunId != Some("")
  {
    var plans := m.plan.plannedRuns;
    forall i: nat, j: nat | i < j < |runs| && runs[i].acceptedRunId.Some?
      ensures runs[i].acceptedRunId != runs[j].acceptedRunId
    {
      assert Answers(attempts, plans[i], runs[i]) && Answers(attempts, plans[j], runs[j]);
      PlansApart(m, i, j);
      if runs[i].acceptedRunId == runs[j].acceptedRunId {
        SameRunSamePlan(attempts, plans[i], plans[j], runs[i].acceptedRunId.value);
      }
    }
    forall i | 0 <= i < |runs|
      ensures runs[i].acceptedRunId != Some("")
      ensures runs[i] == plans[i].(acceptedRunId := runs[i].acceptedRunId)
    {
      assert Answers(attempts, plans[i], runs[i]);
      if runs[i].acceptedRunId.Some? { SameRunSamePlan(attempts, plans[i], plans[i], runs[i].acceptedRunId.value); }
    }
  }

  /** The manifest of a loop that went through is valid. */
  lemma LoopManifestIsValid(m: Matrix, attempts: seq<Attempt>, runs: seq<PlannedRun>, reference: Reference)
    requires ValidMatrix(m) && UniqueRuns(attempts) && ReferenceProblem(reference).None?
    requires AllAnswer(attempts, m.plan.plannedRuns, runs) && |runs| == |m.plan.plannedRuns|
    ensures Validate(FinalManifest(m.plan, runs, reference)).None?
  {
    AnswersShareNoRun(m, attempts, runs);
    FilledPlanIsValid(m.plan, runs, reference);
  }

  // One call

  ghost predicate Unexpected(e: MatrixError) {
    e.PlanDiffers? || e.InvalidManifest? || e.CalibrationNegative? || e.MismatchedAttempt? || e.DuplicateAccepted?
  }

  /** The call keeps the invariant and its error, if any, is not one of the conflict errors. */
  ghost predicate Sound(m: Matrix, outcome: (Store, Result<Summary, MatrixError>)) {
    Inv(m, outcome.0) && (outcome.1.Err? ==> !Unexpected(outcome.1.error))
  }

  lemma ConcludeKeeps(m: Matrix, s: Store, ending: Ending, loop: Loop, reference: Reference, resume: bool)
    requires ValidMatrix(m) && Inv(m, s) && s.plan.Some? && s.summaries == [] && ReferenceProblem(reference).None?
    requires LoopInv(m, loop, |m.plan.plannedRuns|, resume) && loop.stopped.None? && s.attempts == loop.attempts
    ensures Sound(m, Conclude(m, s, ending, loop, reference))
  {
    LoopManifestIsValid(m, loop.attempts, loop.runs, reference);
  }

  lemma SavedAttemptsKeep(m: Matrix, s: Store, loop: Loop, resume: bool)
    requires Inv(m, s) && s.plan.Some? && s.summaries == []
    requires LoopInv(m, loop, |m.plan.plannedRuns|, resume)
    ensures Inv(m, s.(attempts := loop.attempts))
  {
  }

  lemma VisitAllKeeps(m: Matrix, s: Store, call: Call, reference: Reference)
    requires ValidMatrix(m) && Inv(m, s) && s.plan.Some? && s.summaries == [] && ReferenceProblem(reference).None?
    requires SoundLaunches(call.launches)
    requires !call.resume ==> Untried(s.attempts, m.plan.plannedRuns, 0)
    ensures Sound(m, VisitAll(m, s, call, reference))
  {
    var n := |m.plan.plannedRuns|;
    LoopKeeps(m, n, s.attempts, call.launches, call.resume);
    var loop := VisitPlans(m.plan.plannedRuns, n, s.attempts, call.launches, call.resume);
    SavedAttemptsKeep(m, s, loop, call.resume);
    if loop.stopped.None? {
      ConcludeKeeps(m, s.(attempts := loop.attempts), call.ending, loop, reference, call.resume);
    }
  }

  lemma ProceedKeeps(m: Matrix, s: Store, call: Call)
    requires ValidMatrix(m) && Inv(m, s) && s.plan.Some? && s.summaries == [] && SoundCall(call)
    requires !call.resume ==> Untried(s.attempts, m.plan.plannedRuns, 0)
    ensures Sound(m, Proceed(m, s, call))
  {
    var sweep := Calibrate(s.sweep, call).0;
    var s' := s.(sweep := sweep);
    assert Inv(m, s');
    if sweep.Swept? { VisitAllKeeps(m, s', call, sweep.reference); }
  }

  lemma CallKeeps(m: Matrix, s: Store, call: Call)
    requires ValidMatrix(m) && Inv(m, s) && SoundCall(call)
    ensures Sound(m, AfterCall(m, s, call))
  {
    if |s.summaries| == 0 && PlanProblem(m, s.plan, call.resume).None? {
      var s' := s.(plan := if s.plan.Some? then s.plan else Some(m.plan));
      assert Inv(m, s');
      ProceedKeeps(m, s', call);
    }
  }

  // Any number of calls

  /** The store after these calls, one after another. */
  function Play(m: Matrix, s: Store, calls: seq<Call>): Store {
    if calls == [] then s else AfterCall(m, Play(m, s, calls[..|calls| - 1]), calls[|calls| - 1]).0
  }

  /** No file of this corpus yet, and no attempt under its plan ids. */
  ghost predicate Fresh(m: Matrix, s: Store) {
    && s.plan.None? && s.final.None? && s.summaries == [] && s.sweep.NotStarted?
    && UniqueRuns(s.attempts) && Untried(s.attempts, m.plan.plannedRuns, 0)
  }

  lemma {:induction false} UntriedIsClean(attempts: seq<Attempt>, plan: PlannedRun)
    requires OwnAttempts(attempts, plan) == []
    ensures Clean(attempts, plan)
  {
    AcceptedAreOwn(attempts, plan);
    if attempts != [] {
      var n := |attempts| - 1;
      assert attempts == attempts[..n] + [attempts[n]];
      FilterMapSnoc(attempts[..n], attempts[n], Own(plan));
      UntriedIsClean(attempts[..n], plan);
      MismatchSnoc(attempts[..n], attempts[n], plan);
    }
  }

  lemma FreshIsSound(m: Matrix, s: Store)
    requires Fresh(m, s)
    ensures Inv(m, s)
  {
    forall i | 0 <= i < |m.plan.plannedRuns|
      ensures Clean(s.attempts, m.plan.plannedRuns[i])
    {
      UntriedIsClean(s.attempts, m.plan.plannedRuns[i]);
    }
  }

  /** Every store reached from a fresh one by any calls, wherever they crash or fail, keeps the invariant. */
  lemma {:induction false} PlayKeeps(m: Matrix, s: Store, calls: seq<Call>)
    requires ValidMatrix(m) && Inv(m, s) && SoundCalls(calls)
    ensures Inv(m, Play(m, s, calls))
  {
    if calls != [] {
      var n := |calls| - 1;
      PlayKeeps(m, s, calls[..n]);
      CallKeeps(m, Play(m, s, calls[..n]), calls[n]);
    }
  }
}
