/** What any number of crashed and resumed calls can and cannot lead to. */
module MatrixLaws {
  import opened Common
  import opened Corpus
  import opened Matrices
  import opened MatrixRuns

  // Conflicts

  /** From a fresh store, no call of any run ever ends in a duplicate or mismatched attempt, a differing
      plan or an invalid manifest; each plan has at most one run that resuming would take over, and a
      saved final manifest is valid. */
  lemma ConflictsNeverArise(m: Matrix, s: Store, calls: seq<Call>, call: Call)
    requires ValidMatrix(m) && Fresh(m, s) && SoundCalls(calls) && SoundCall(call)
    ensures var reached := Play(m, s, calls);
      && (AfterCall(m, reached, call).1.Err? ==> !Unexpected(AfterCall(m, reached, call).1.error))
      && (forall i :: 0 <= i < |m.plan.plannedRuns| ==> |AcceptedRuns(reached.attempts, m.plan.plannedRuns[i])| <= 1)
      && (reached.final.Some? ==> Validate(reached.final.value).None?)
  {
    FreshIsSound(m, s);
    PlayKeeps(m, s, calls);
    var reached := Play(m, s, calls);
    CallKeeps(m, reached, call);
    forall i | 0 <= i < |m.plan.plannedRuns|
      ensures |AcceptedRuns(reached.attempts, m.plan.plannedRuns[i])| <= 1
    {
      assert Clean(reached.attempts, m.plan.plannedRuns[i]);
    }
  }

  // Which plans are run

  ghost predicate SameFor(before: seq<Attempt>, after: seq<Attempt>, plan: PlannedRun) {
    OwnAttempts(after, plan) == OwnAttempts(before, plan) && AcceptedRuns(after, plan) == AcceptedRuns(before, plan)
  }

  ghost predicate Takes(attempts: seq<Attempt>, plan: PlannedRun, resume: bool) {
    resume && AcceptedRuns(attempts, plan) != []
  }

  /** What the first `k` visits did for plan number `i`. */
  ghost predicate Launched(m: Matrix, k: nat, i: nat, attempts: seq<Attempt>, s: Loop, resume: bool)
    requires i < |m.plan.plannedRuns|
  {
    var plan := m.plan.plannedRuns[i];
    && (k <= i || Takes(attempts, plan, resume) ==> SameFor(attempts, s.attempts, plan))
    && (i < k && s.stopped.None? && !Takes(attempts, plan, resume) ==>
          |OwnAttempts(s.attempts, plan)| == |OwnAttempts(attempts, plan)| + 1)
  }

  /** A visit saves at most one attempt, under its own plan. */
  lemma VisitSaves(s: Loop, plan: PlannedRun, launches: seq<Launch>, resume: bool)
    requires s.stopped.None?
    ensures var s' := Visit(s, plan, launches, resume);
      || s'.attempts == s.attempts
      || exists a :: s'.attempts == s.attempts + [a] && BelongsTo(a, plan) && a.planned == plan.config
    ensures Takes(s.attempts, plan, resume) ==> Visit(s, plan, launches, resume).attempts == s.attempts
    ensures !Takes(s.attempts, plan, resume) && Visit(s, plan, launches, resume).stopped.None?
            ==> Visit(s, plan, launches, resume).attempts != s.attempts
  {
  }

  lemma VisitOther(s: Loop, plan: PlannedRun, other: PlannedRun, launches: seq<Launch>, resume: bool)
    requires s.stopped.None? && plan.planId != other.planId
    ensures SameFor(s.attempts, Visit(s, plan, launches, resume).attempts, other)
  {
    VisitSaves(s, plan, launches, resume);
    var s' := Visit(s, plan, launches, resume);
    if s'.attempts != s.attempts {
      var a :| s'.attempts == s.attempts + [a] && BelongsTo(a, plan);
      SavedForOther(s.attempts, a, other);
    }
  }

  lemma VisitOwn(s: Loop, plan: PlannedRun, launches: seq<Launch>, resume: bool)
    requires s.stopped.None? && Visit(s, plan, launches, resume).stopped.None? && !Takes(s.attempts, plan, resume)
    ensures |OwnAttempts(Visit(s, plan, launches, resume).attempts, plan)| == |OwnAttempts(s.attempts, plan)| + 1
  {
    VisitSaves(s, plan, launches, resume);
    var s' := Visit(s, plan, launches, resume);
    var a :| s'.attempts == s.attempts + [a] && BelongsTo(a, plan) && a.planned == plan.config;
    SavedForOwn(s.attempts, a, plan);
  }

  lemma NextLaunched(m: Matrix, k: nat, i: nat, attempts: seq<Attempt>, s: Loop, launches: seq<Launch>, resume: bool)
    requires ValidMatrix(m) && k < |m.plan.plannedRuns| && i < |m.plan.plannedRuns|
    requires Launched(m, k, i, attempts, s, resume)
    ensures Launched(m, k + 1, i, attempts, Next(s, m.plan.plannedRuns[k], launches, resume), resume)
  {
    var plans := m.plan.plannedRuns;
    if s.stopped.None? {
      if i != k {
        PlansApart(m, i, k);
        VisitOther(s, plans[k], plans[i], launches, resume);
      } else {
        VisitSaves(s, plans[k], launches, resume);
        if Visit(s, plans[k], launches, resume).stopped.None? && !Takes(attempts, plans[k], resume) {
          VisitOwn(s, plans[k], launches, resume);
        }
      }
    }
  }

  lemma LoopLaunches(m: Matrix, k: nat, i: nat, attempts: seq<Attempt>, launches: seq<Launch>, resume: bool)
    requires ValidMatrix(m) && k <= |m.plan.plannedRuns| && i < |m.plan.plannedRuns|
    ensures Launched(m, k, i, attempts, VisitPlans(m.plan.plannedRuns, k, attempts, launches, resume), resume)
  {
    var inv := (s: Loop, j: nat) => Launched(m, j, i, attempts, s, resume);
    forall s: Loop, j: nat | j < k && inv(s, j)
      ensures inv(Next(s, m.plan.plannedRuns[j], launches, resume), j + 1)
    {
      NextLaunched(m, j, i, attempts, s, launches, resume);
    }
    LoopInduction(m.plan.plannedRuns, k, attempts, launches, resume, inv);
  }

  /** A loop that goes through launches every plan exactly once, except those for which resuming found a
      run to take over: these not at all. */
  lemma LaunchedExactly(m: Matrix, i: nat, attempts: seq<Attempt>, launches: seq<Launch>, resume: bool)
    requires ValidMatrix(m) && i < |m.plan.plannedRuns|
    requires VisitPlans(m.plan.plannedRuns, |m.plan.plannedRuns|, attempts, launches, resume).stopped.None?
    ensures var loop := VisitPlans(m.plan.plannedRuns, |m.plan.plannedRuns|, attempts, launches, resume);
      var plan := m.plan.plannedRuns[i];
      |OwnAttempts(loop.attempts, plan)|
        == |OwnAttempts(attempts, plan)| + if resume && AcceptedRuns(attempts, plan) != [] then 0 else 1
  {
    LoopLaunches(m, |m.plan.plannedRuns|, i, attempts, launches, resume);
  }

  // An accepted run stays accepted

  lemma VisitsSpareAccepted(m: Matrix, s: Store, call: Call, reference: Reference, i: nat)
    requires ValidMatrix(m) && i < |m.plan.plannedRuns| && call.resume
    requires AcceptedRuns(s.attempts, m.plan.plannedRuns[i]) != []
    ensures SameFor(s.attempts, VisitAll(m, s, call, reference).0.attempts, m.plan.plannedRuns[i])
  {
    LoopLaunches(m, |m.plan.plannedRuns|, i, s.attempts, call.launches, call.resume);
  }

  lemma ProceedSparesAccepted(m: Matrix, s: Store, call: Call, i: nat)
    requires ValidMatrix(m) && i < |m.plan.plannedRuns| && call.resume
    requires AcceptedRuns(s.attempts, m.plan.plannedRuns[i]) != []
    ensures SameFor(s.attempts, Proceed(m, s, call).0.attempts, m.plan.plannedRuns[i])
  {
    var sweep := Calibrate(s.sweep, call).0;
    if sweep.Swept? { VisitsSpareAccepted(m, s.(sweep := sweep), call, sweep.reference, i); }
  }

  lemma CallSparesAccepted(m: Matrix, s: Store, call: Call, i: nat)
    requires ValidMatrix(m) && Inv(m, s) && i < |m.plan.plannedRuns|
    requires AcceptedRuns(s.attempts, m.plan.plannedRuns[i]) != []
    ensures SameFor(s.attempts, AfterCall(m, s, call).0.attempts, m.plan.plannedRuns[i])
  {
    if s.plan.None? {
      assert OwnAttempts(s.attempts, m.plan.plannedRuns[i]) == [];
      AcceptedAreOwn(s.attempts, m.plan.plannedRuns[i]);
    } else if call.resume {
      ProceedSparesAccepted(m, s, call, i);
    }
  }

  lemma {:induction false} PlaySparesAccepted(m: Matrix, s: Store, calls: seq<Call>, i: nat)
    requires ValidMatrix(m) && Inv(m, s) && SoundCalls(calls) && i < |m.plan.plannedRuns|
    requires AcceptedRuns(s.attempts, m.plan.plannedRuns[i]) != []
    ensures SameFor(s.attempts, Play(m, s, calls).attempts, m.plan.plannedRuns[i])
  {
    if calls != [] {
      var n := |calls| - 1;
      PlaySparesAccepted(m, s, calls[..n], i);
      PlayKeeps(m, s, calls[..n]);
      CallSparesAccepted(m, Play(m, s, calls[..n]), calls[n], i);
    }
  }

  lemma ConcludedIsSummarized(m: Matrix, s: Store, ending: Ending, loop: Loop, reference: Reference)
    requires s.summaries == [] && Conclude(m, s, ending, loop, reference).1.Ok?
    ensures Conclude(m, s, ending, loop, reference).0.summaries == [Conclude(m, s, ending, loop, reference).1.value]
  {
  }

  lemma VisitedIsSummarized(m: Matrix, s: Store, call: Call, reference: Reference)
    requires s.summaries == [] && VisitAll(m, s, call, reference).1.Ok?
    ensures VisitAll(m, s, call, reference).0.summaries == [VisitAll(m, s, call, reference).1.value]
  {
    var loop := VisitPlans(m.plan.plannedRuns, |m.plan.plannedRuns|, s.attempts, call.launches, call.resume);
    ConcludedIsSummarized(m, s.(attempts := loop.attempts), call.ending, loop, reference);
  }

  /** An answered call leaves exactly its summary. */
  lemma AnsweredIsSummarized(m: Matrix, s: Store, call: Call)
    requires |s.summaries| <= 1 && AfterCall(m, s, call).1.Ok?
    ensures AfterCall(m, s, call).0.summaries == [AfterCall(m, s, call).1.value]
  {
    if s.summaries == [] {
      var s' := s.(plan := if s.plan.Some? then s.plan else Some(m.plan));
      var sweep := Calibrate(s'.sweep, call).0;
      VisitedIsSummarized(m, s'.(sweep := sweep), call, sweep.reference);
    }
  }

  /** The slots of a finished matrix: a filled one holds a completed run of its own plan, and the one run
      that meets the resume test if there is any. */
  lemma SummaryAnswersEveryPlan(m: Matrix, s: Store, calls: seq<Call>, call: Call, i: nat)
    requires ValidMatrix(m) && Fresh(m, s) && SoundCalls(calls) && SoundCall(call)
    requires AfterCall(m, Play(m, s, calls), call).1.Ok? && i < |m.plan.plannedRuns|
    ensures var (reached, r) := AfterCall(m, Play(m, s, calls), call);
      && Validate(r.value.final).None?
      && |r.value.final.plannedRuns| == |m.plan.plannedRuns|
      && Answers(reached.attempts, m.plan.plannedRuns[i], r.value.final.plannedRuns[i])
  {
    FreshIsSound(m, s);
    PlayKeeps(m, s, calls);
    CallKeeps(m, Play(m, s, calls), call);
    AnsweredIsSummarized(m, Play(m, s, calls), call);
  }

  /** Once a plan has a run that meets the resume test, no later call runs that plan again, whatever crashes
      come between, and every summary any of them returns assigns that run to it. */
  lemma AcceptedForGood(m: Matrix, s: Store, before: seq<Call>, after: seq<Call>, call: Call, i: nat, id: string)
    requires ValidMatrix(m) && Fresh(m, s) && SoundCalls(before) && SoundCalls(after) && SoundCall(call)
    requires i < |m.plan.plannedRuns| && AcceptedRuns(Play(m, s, before).attempts, m.plan.plannedRuns[i]) == [id]
    ensures var plan, early := m.plan.plannedRuns[i], Play(m, s, before);
      var (late, r) := AfterCall(m, Play(m, early, after), call);
      && OwnAttempts(late.attempts, plan) == OwnAttempts(early.attempts, plan)
      && AcceptedRuns(late.attempts, plan) == [id]
      && (r.Ok? ==> |r.value.final.plannedRuns| == |m.plan.plannedRuns|)
      && (r.Ok? ==> r.value.final.plannedRuns[i].acceptedRunId == Some(id))
  {
    FreshIsSound(m, s);
    PlayKeeps(m, s, before);
    var early := Play(m, s, before);
    PlaySparesAccepted(m, early, after, i);
    PlayKeeps(m, early, after);
    var reached := Play(m, early, after);
    CallSparesAccepted(m, reached, call, i);
    CallKeeps(m, reached, call);
    if AfterCall(m, reached, call).1.Ok? { AnsweredIsSummarized(m, reached, call); }
  }

  // The counts of a summary

  /** One outcome and one filled or empty slot for every plan visited so far. */
  ghost predicate Tallied(s: Loop) {
    && |s.runIds| == |s.runs| == s.completed + s.failed
    && s.completed == |AssignedIds(s.runs)|
  }

  lemma AssignedSnoc(runs: seq<PlannedRun>, run: PlannedRun)
    ensures |AssignedIds(runs + [run])| == |AssignedIds(runs)| + if run.acceptedRunId.Some? then 1 else 0
  {
    assert (runs + [run])[..|runs|] == runs;
  }

  lemma TakeOverTallies(s: Loop, plan: PlannedRun, id: string)
    requires Tallied(s)
    ensures Tallied(TakeOver(s, plan, id))
  {
    AssignedSnoc(s.runs, plan.(acceptedRunId := Some(id)));
  }

  lemma RunTallies(s: Loop, plan: PlannedRun, launch: Launch)
    requires Tallied(s)
    ensures Tallied(Run(s, plan, launch))
  {
    if launch.Saved? {
      AssignedSnoc(s.runs, plan.(acceptedRunId := if launch.status == Completed then Some(launch.runId) else None));
    }
  }

  lemma StopTallies(s: Loop, e: MatrixError)
    requires Tallied(s)
    ensures Tallied(s.(stopped := Some(e)))
  {
  }

  lemma NextTallies(s: Loop, plan: PlannedRun, launches: seq<Launch>, resume: bool)
    requires Tallied(s)
    ensures Tallied(Next(s, plan, launches, resume))
  {
    if s.stopped.None? {
      match Settle(plan, s.attempts, resume)
      case Err(e) => StopTallies(s, e);
      case Ok(Some(id)) => TakeOverTallies(s, plan, id);
      case Ok(None) =>
        if s.used >= |launches| { StopTallies(s, Crashed); } else { RunTallies(s, plan, launches[s.used]); }
    }
  }

  lemma LoopTallies(plans: seq<PlannedRun>, attempts: seq<Attempt>, launches: seq<Launch>, resume: bool)
    ensures Tallied(VisitPlans(plans, |plans|, attempts, launches, resume))
  {
    var inv := (s: Loop, j: nat) => Tallied(s);
    forall s: Loop, j: nat | j < |plans| && inv(s, j)
      ensures inv(Next(s, plans[j], launches, resume), j + 1)
    {
      NextTallies(s, plans[j], launches, resume);
    }
    LoopInduction(plans, |plans|, attempts, launches, resume, inv);
  }

  /** Completed and failed runs of a summary add up to the plans, and the completed ones are exactly the
      accepted ones. */
  ghost predicate CountsAgree(m: Matrix, r: Summary) {
    && r.completed + r.failed == |m.plan.plannedRuns| == |r.runIds|
    && r.completed == |r.final.acceptedRunIds|
  }

  lemma VisitedCountsAgree(m: Matrix, s: Store, call: Call, reference: Reference)
    requires VisitAll(m, s, call, reference).1.Ok?
    requires LoopInv(m, VisitPlans(m.plan.plannedRuns, |m.plan.plannedRuns|, s.attempts, call.launches, call.resume),
                     |m.plan.plannedRuns|, call.resume)
    ensures CountsAgree(m, VisitAll(m, s, call, reference).1.value)
  {
    LoopTallies(m.plan.plannedRuns, s.attempts, call.launches, call.resume);
  }

  lemma SummaryCounts(m: Matrix, s: Store, call: Call)
    requires ValidMatrix(m) && Inv(m, s) && SoundCall(call) && s.summaries == [] && AfterCall(m, s, call).1.Ok?
    ensures CountsAgree(m, AfterCall(m, s, call).1.value)
  {
    var s' := s.(plan := if s.plan.Some? then s.plan else Some(m.plan));
    var sweep := Calibrate(s'.sweep, call).0;
    LoopKeeps(m, |m.plan.plannedRuns|, s.attempts, call.launches, call.resume);
    VisitedCountsAgree(m, s'.(sweep := sweep), call, sweep.reference);
  }

  // States no call leaves

  /** A finished matrix is frozen: resuming returns the one summary, anything else is refused, and nothing
      is written. */
  lemma {:induction false} FinishedIsFrozen(m: Matrix, s: Store, calls: seq<Call>, call: Call)
    requires |s.summaries| == 1
    ensures Play(m, s, calls) == s
    ensures AfterCall(m, s, call) == (s, if call.resume then Ok(s.summaries[0]) else Err(SummaryExists))
  {
    if calls != [] { FinishedIsFrozen(m, s, calls[..|calls| - 1], call); }
  }

  ghost predicate StuckAfterFinal(s: Store) {
    s.final.Some? && s.summaries == []
  }

  lemma StuckAtConclude(m: Matrix, s: Store, ending: Ending, loop: Loop, reference: Reference)
    requires s.final.Some?
    ensures Conclude(m, s, ending, loop, reference).0 == s && Conclude(m, s, ending, loop, reference).1.Err?
  {
  }

  lemma StuckCall(m: Matrix, s: Store, call: Call)
    requires StuckAfterFinal(s)
    ensures AfterCall(m, s, call).1.Err?
    ensures AfterCall(m, s, call).0.final == s.final && StuckAfterFinal(AfterCall(m, s, call).0)
  {
    var s1 := s.(plan := if s.plan.Some? then s.plan else Some(m.plan));
    var sweep := Calibrate(s1.sweep, call).0;
    var s2 := s1.(sweep := sweep);
    var loop := VisitPlans(m.plan.plannedRuns, |m.plan.plannedRuns|, s2.attempts, call.launches, call.resume);
    if sweep.Swept? { StuckAtConclude(m, s2.(attempts := loop.attempts), call.ending, loop, sweep.reference); }
  }

  /** After a final manifest without a summary, no later call, resumed or not, ever returns a summary: the
      saved manifest is read back with lists and compared with one that has tuples. */
  lemma {:induction false} FinalWithoutSummaryIsForEver(m: Matrix, s: Store, calls: seq<Call>, call: Call)
    requires StuckAfterFinal(s)
    ensures var reached := Play(m, s, calls);
      reached.final == s.final && reached.summaries == [] && AfterCall(m, reached, call).1.Err?
  {
    if calls != [] {
      var n := |calls| - 1;
      FinalWithoutSummaryIsForEver(m, s, calls[..n], calls[n]);
      StuckCall(m, Play(m, s, calls[..n]), calls[n]);
    }
    StuckCall(m, Play(m, s, calls), call);
  }

  /** A calibration sweep cut short blocks the corpus: no experiment of it is ever launched. */
  lemma {:induction false} InterruptedSweepIsForEver(m: Matrix, s: Store, calls: seq<Call>, call: Call)
    requires s.sweep.Started? && s.summaries == []
    ensures var reached := Play(m, s, calls);
      reached.sweep.Started? && reached.summaries == [] && reached.attempts == s.attempts
        && AfterCall(m, reached, call).1.Err?
  {
    if calls != [] { InterruptedSweepIsForEver(m, s, calls[..|calls| - 1], call); }
  }

  /** A first call whose sweep is cut short leads there. */
  lemma InterruptedSweepIsReached(m: Matrix, s: Store, first: Call)
    requires ValidMatrix(m) && Fresh(m, s) && first.sweep == Interrupted
    ensures var (s', r) := AfterCall(m, s, first);
      r == Err(Crashed) && s'.sweep == Started && s'.summaries == []
  {
  }

  // When a call finishes

  /** A call the outside world does not hinder: its sweep would succeed, the calibration in effect passes,
      and there are enough experiments, each with a run id of its own and brought to an end. */
  ghost predicate Smooth(m: Matrix, s: Store, call: Call) {
    && call.ending == Finishes && call.verified && call.sweep.Done?
    && (m.smoke || (if call.resume && s.sweep.Swept? then s.sweep.supported else call.sweep.supported))
    && SmoothLaunches(s.attempts, call.launches)
    && |call.launches| >= |m.plan.plannedRuns|
  }

  ghost predicate SmoothLaunches(attempts: seq<Attempt>, launches: seq<Launch>) {
    && (forall k :: 0 <= k < |launches| ==>
      launches[k].Saved? && launches[k].returned && launches[k].runId !in RunIds(attempts))
    && (forall k, j :: 0 <= k < j < |launches| ==> launches[k].runId != launches[j].runId)
  }

  /** After `k` smooth visits only run ids of used launches have been added. */
  ghost predicate SmoothSoFar(launches: seq<Launch>, s: Loop, k: nat) {
    && s.stopped.None? && s.used <= k && s.used <= |launches|
    && (forall j :: s.used <= j < |launches| && launches[j].Saved? ==> launches[j].runId !in RunIds(s.attempts))
  }

  lemma SmoothVisit(m: Matrix, k: nat, attempts: seq<Attempt>, launches: seq<Launch>, s: Loop, resume: bool)
    requires k < |m.plan.plannedRuns| && |launches| >= |m.plan.plannedRuns| && SmoothLaunches(attempts, launches)
    requires LoopInv(m, s, k, resume) && SmoothSoFar(launches, s, k)
    ensures SmoothSoFar(launches, Next(s, m.plan.plannedRuns[k], launches, resume), k + 1)
  {
    var plan := m.plan.plannedRuns[k];
    NothingToTakeOver(m, s, k, resume);
    if Settle(plan, s.attempts, resume).value.None? {
      var launch := launches[s.used];
      assert launch.runId !in RunIds(s.attempts);
      assert RunIds(s.attempts + [AttemptAt(plan, launch)]) == RunIds(s.attempts) + [launch.runId];
    }
  }

  ghost predicate OnTrack(m: Matrix, s: Loop, k: nat, launches: seq<Launch>, resume: bool) {
    LoopInv(m, s, k, resume) && SmoothSoFar(launches, s, k)
  }

  lemma SmoothNext(m: Matrix, s: Loop, k: nat, attempts: seq<Attempt>, launches: seq<Launch>, resume: bool)
    requires ValidMatrix(m) && k < |m.plan.plannedRuns| <= |launches|
    requires SmoothLaunches(attempts, launches) && SoundLaunches(launches)
    requires OnTrack(m, s, k, launches, resume)
    ensures OnTrack(m, Next(s, m.plan.plannedRuns[k], launches, resume), k + 1, launches, resume)
  {
    SmoothVisit(m, k, attempts, launches, s, resume);
    NextKeeps(m, s, k, launches, resume);
  }

  lemma SmoothLoop(m: Matrix, k: nat, attempts: seq<Attempt>, launches: seq<Launch>, resume: bool)
    requires ValidMatrix(m) && k <= |m.plan.plannedRuns| <= |launches|
    requires SmoothLaunches(attempts, launches) && SoundLaunches(launches)
    requires LoopInv(m, Loop(attempts, 0, [], [], 0, 0, None), 0, resume)
    ensures OnTrack(m, VisitPlans(m.plan.plannedRuns, k, attempts, launches, resume), k, launches, resume)
  {
    var inv := (s: Loop, j: nat) => OnTrack(m, s, j, launches, resume);
    forall s: Loop, j: nat | j < k && inv(s, j)
      ensures inv(Next(s, m.plan.plannedRuns[j], launches, resume), j + 1)
    {
      SmoothNext(m, s, j, attempts, launches, resume);
    }
    LoopInduction(m.plan.plannedRuns, k, attempts, launches, resume, inv);
  }

  lemma SmoothConclude(m: Matrix, s: Store, call: Call, reference: Reference)
    requires ValidMatrix(m) && Inv(m, s) && s.plan.Some? && s.summaries == [] && s.final.None?
    requires ReferenceProblem(reference).None? && SoundLaunches(call.launches)
    requires !call.resume ==> Untried(s.attempts, m.plan.plannedRuns, 0)
    requires SmoothLaunches(s.attempts, call.launches) && |call.launches| >= |m.plan.plannedRuns|
    requires call.ending == Finishes
    ensures VisitAll(m, s, call, reference).1.Ok?
  {
    var n := |m.plan.plannedRuns|;
    LoopStarts(m, s.attempts, call.resume);
    SmoothLoop(m, n, s.attempts, call.launches, call.resume);
    var loop := VisitPlans(m.plan.plannedRuns, n, s.attempts, call.launches, call.resume);
    LoopManifestIsValid(m, loop.attempts, loop.runs, reference);
  }

  /** An unhindered call on an unfinished matrix returns a summary exactly when no final manifest was left
      behind, the plan is new or the call resumes, and no earlier sweep stands in the way. */
  lemma FinishesExactly(m: Matrix, s: Store, call: Call)
    requires ValidMatrix(m) && Inv(m, s) && SoundCall(call) && s.summaries == [] && Smooth(m, s, call)
    ensures AfterCall(m, s, call).1.Ok? <==>
      && s.final.None?
      && (s.plan.None? || call.resume)
      && (s.sweep.NotStarted? || (call.resume && s.sweep.Swept?))
  {
    if s.final.Some? {
      StuckCall(m, s, call);
    } else if s.plan.None? || call.resume {
      var s' := s.(plan := if s.plan.Some? then s.plan else Some(m.plan));
      var sweep := Calibrate(s.sweep, call).0;
      if sweep.Swept? { SmoothConclude(m, s'.(sweep := sweep), call, sweep.reference); }
    }
  }

  /** On a finished loop, the final manifest is written before the summary is. */
  lemma FinalComesFirst(m: Matrix, s: Store, loop: Loop, reference: Reference)
    requires s.summaries == [] && Conclude(m, s, Finishes, loop, reference).1.Ok?
    ensures StuckAfterFinal(Conclude(m, s, BeforeSummary, loop, reference).0)
  {
  }

  /** A crash between final manifest and summary is reached from a fresh store: by the call that would
      have finished, cut short there. Whatever is called afterwards, the matrix is never finished. */
  lemma CrashBeforeSummaryIsNotRecoverable(m: Matrix, s: Store, first: Call, calls: seq<Call>, call: Call)
    requires ValidMatrix(m) && Fresh(m, s) && SoundCall(first)
    requires first.ending == BeforeSummary && Smooth(m, s, first.(ending := Finishes))
    ensures var (crashed, r) := AfterCall(m, s, first);
      && r == Err(Crashed) && StuckAfterFinal(crashed)
      && Play(m, crashed, calls).summaries == [] && AfterCall(m, Play(m, crashed, calls), call).1.Err?
  {
    var whole := first.(ending := Finishes);
    FreshIsSound(m, s);
    FinishesExactly(m, s, whole);
    var s1 := s.(plan := Some(m.plan));
    var sweep := Calibrate(s1.sweep, whole).0;
    assert Calibrate(s1.sweep, first) == Calibrate(s1.sweep, whole);
    var loop := VisitPlans(m.plan.plannedRuns, |m.plan.plannedRuns|, s.attempts, first.launches, first.resume);
    FinalComesFirst(m, s1.(sweep := sweep, attempts := loop.attempts), loop, sweep.reference);
    FinalWithoutSummaryIsForEver(m, AfterCall(m, s, first).0, calls, call);
  }
}
