/** One `run_matrix` call against the artifact store (orchestrator.py), with the points where it can be
    cut short. */
module Matrices {
  import opened Common
  import opened Lists
  import opened Corpus

  datatype ExitStatus = Completed | Failed | TimedOut

  /** A saved run manifest. The configuration stands for its own SHA-256. */
  datatype Attempt = Attempt(
    runId: string, planId: string, planned: Config,
    status: ExitStatus, participationValid: bool, measuredSeconds: Option<real>)

  datatype Summary = Summary(final: CorpusManifest, runIds: seq<string>, completed: nat, failed: nat)

  datatype Sweep = NotStarted | Started | Swept(reference: Reference, supported: bool)

  /** The files of one corpus in the artifact store. */
  datatype Store = Store(
    attempts: seq<Attempt>, plan: Option<CorpusManifest>, sweep: Sweep,
    final: Option<CorpusManifest>, summaries: seq<Summary>)

  /** The fixed part of every call: plan manifest, profile and calibration mode. */
  datatype Matrix = Matrix(plan: CorpusManifest, smoke: bool, negativeMode: bool)

  /** What launching one experiment comes to: a crash before its manifest is saved, or a saved manifest
      after which the launcher may still be cut short. */
  datatype Launch =
    | Lost
    | Saved(runId: string, status: ExitStatus, participationValid: bool, measuredSeconds: Option<real>, returned: bool)

  datatype SweepRun = Blocked | Interrupted | Done(reference: Reference, supported: bool)

  datatype Ending = BeforeFinal | BeforeSummary | Finishes

  /** One call: its `resume` flag and everything the outside world decides. When the launches run out the
      call is killed before the next one; `ending` says how far a call gets after the loop. */
  datatype Call = Call(resume: bool, sweep: SweepRun, verified: bool, launches: seq<Launch>, ending: Ending)

  datatype MatrixError =
    | SummaryExists | PlanExists | PlanDiffers | InvalidManifest(problem: Problem)
    | SweepRefused | CalibrationRejected | CalibrationNegative
    | MismatchedAttempt | DuplicateAccepted | RunDirectoryExists | FinalDiffers | Crashed

  // Attempts of a plan

  predicate BelongsTo(a: Attempt, plan: PlannedRun) {
    a.planId == plan.planId
  }

  predicate MeetsResumeTest(a: Attempt) {
    && a.status == Completed
    && a.participationValid
    && a.measuredSeconds.Some? && a.measuredSeconds.value >= 30.0
  }

  predicate Mismatched(attempts: seq<Attempt>, plan: PlannedRun) {
    exists i :: 0 <= i < |attempts| && BelongsTo(attempts[i], plan) && attempts[i].planned != plan.config
  }

  function AcceptedId(plan: PlannedRun): Attempt -> Option<string> {
    (a: Attempt) => if BelongsTo(a, plan) && MeetsResumeTest(a) then Some(a.runId) else None
  }

  /** The runs that resuming may take over for a plan. */
  function AcceptedRuns(attempts: seq<Attempt>, plan: PlannedRun): seq<string> {
    FilterMap(attempts, AcceptedId(plan))
  }

  function RunIds(attempts: seq<Attempt>): (r: seq<string>)
    ensures |r| == |attempts| && forall i :: 0 <= i < |r| ==> r[i] == attempts[i].runId
  {
    seq(|attempts|, i requires 0 <= i < |attempts| => attempts[i].runId)
  }

  /** Is there an accepted run to take over? */
  function Settle(plan: PlannedRun, attempts: seq<Attempt>, resume: bool): Result<Option<string>, MatrixError> {
    if !resume then Ok(None)
    else if Mismatched(attempts, plan) then Err(MismatchedAttempt)
    else
      var accepted := AcceptedRuns(attempts, plan);
      if |accepted| > 1 then Err(DuplicateAccepted)
      else if |accepted| == 1 then Ok(Some(accepted[0]))
      else Ok(None)
  }

  // The loop over the plans

  datatype Loop = Loop(
    attempts: seq<Attempt>, used: nat, runs: seq<PlannedRun>, runIds: seq<string>, completed: nat, failed: nat,
    stopped: Option<MatrixError>)

  function TakeOver(s: Loop, plan: PlannedRun, id: string): Loop {
    s.(runs := s.runs + [plan.(acceptedRunId := Some(id))], runIds := s.runIds + [id], completed := s.completed + 1)
  }

  function AttemptAt(plan: PlannedRun, launch: Launch): Attempt
    requires launch.Saved?
  {
    Attempt(launch.runId, plan.planId, plan.config, launch.status, launch.participationValid, launch.measuredSeconds)
  }

  function Run(s: Loop, plan: PlannedRun, launch: Launch): Loop {
    if launch.Lost? then s.(stopped := Some(Crashed))
    else if launch.runId in RunIds(s.attempts) then s.(stopped := Some(RunDirectoryExists))
    else
      var saved := s.(attempts := s.attempts + [AttemptAt(plan, launch)], used := s.used + 1);
      if !launch.returned then saved.(stopped := Some(Crashed))
      else
        var id := if launch.status == Completed then Some(launch.runId) else None;
        saved.(
          runs := s.runs + [plan.(acceptedRunId := id)],
          runIds := s.runIds + [launch.runId],
          completed := s.completed + if launch.status == Completed then 1 else 0,
          failed := s.failed + if launch.status == Completed then 0 else 1)
  }

  function Visit(s: Loop, plan: PlannedRun, launches: seq<Launch>, resume: bool): Loop {
    match Settle(plan, s.attempts, resume)
    case Err(e) => s.(stopped := Some(e))
    case Ok(Some(id)) => TakeOver(s, plan, id)
    case Ok(None) => if s.used >= |launches| then s.(stopped := Some(Crashed)) else Run(s, plan, launches[s.used])
  }

  /** One plan further: a loop that has stopped stays as it is. */
  function Next(s: Loop, plan: PlannedRun, launches: seq<Launch>, resume: bool): Loop {
    if s.stopped.Some? then s else Visit(s, plan, launches, resume)
  }

  function VisitPlans(plans: seq<PlannedRun>, n: nat, attempts: seq<Attempt>, launches: seq<Launch>, resume: bool): Loop
    requires n <= |plans|
  {
    if n == 0 then Loop(attempts, 0, [], [], 0, 0, None)
    else
      Next(VisitPlans(plans, n - 1, attempts, launches, resume), plans[n - 1], launches, resume)
  }

  lemma {:induction false} StoppedForGood(plans: seq<PlannedRun>, n: nat, k: nat, attempts: seq<Attempt>,
      launches: seq<Launch>, resume: bool)
    requires n <= k <= |plans| && VisitPlans(plans, n, attempts, launches, resume).stopped.Some?
    ensures VisitPlans(plans, k, attempts, launches, resume) == VisitPlans(plans, n, attempts, launches, resume)
  {
    if n < k { StoppedForGood(plans, n, k - 1, attempts, launches, resume); }
  }

  // Manifests as dictionaries

  /** A manifest as a dictionary, with the type of its two sequences. */
  datatype ManifestDict = ManifestDict(fields: CorpusManifest, sequences: SequenceType)

  datatype SequenceType = PyTuple | PyList

  /** `asdict` keeps tuples. */
  function ToDict(m: CorpusManifest): ManifestDict {
    ManifestDict(m, PyTuple)
  }

  /** `json.loads` makes lists. */
  function Parsed(m: CorpusManifest): ManifestDict {
    ManifestDict(m, PyList)
  }

  function FromDict(d: ManifestDict): CorpusManifest {
    d.fields
  }

  // The phases of a call

  /** What is wrong with the plan file, if anything. */
  function PlanProblem(m: Matrix, plan: Option<CorpusManifest>, resume: bool): Option<MatrixError> {
    if plan.Some? && !resume then Some(PlanExists)
    else if plan.Some? && Validate(FromDict(Parsed(plan.value))).Some? then
      Some(InvalidManifest(Validate(FromDict(Parsed(plan.value))).value))
    else if Validate(m.plan).Some? then Some(InvalidManifest(Validate(m.plan).value))
    else if plan.Some? && ToDict(FromDict(Parsed(plan.value))) != ToDict(m.plan) then Some(PlanDiffers)
    else None
  }

  /** The calibration sweep: reused on resume when complete, refused when begun before. */
  function Calibrate(sweep: Sweep, call: Call): (Sweep, Option<MatrixError>) {
    if call.resume && sweep.Swept? then (sweep, None)
    else if !sweep.NotStarted? then (sweep, Some(SweepRefused))
    else
      match call.sweep
      case Blocked => (sweep, Some(SweepRefused))
      case Interrupted => (Started, Some(Crashed))
      case Done(reference, supported) => (Swept(reference, supported), None)
  }

  function Gate(m: Matrix, supported: bool, verified: bool): Option<MatrixError> {
    if !verified || (!m.smoke && !supported) then Some(CalibrationRejected)
    else if !supported && !m.negativeMode && !m.smoke then Some(CalibrationNegative)
    else None
  }

  function Conclude(m: Matrix, s: Store, ending: Ending, loop: Loop,
      reference: Reference): (Store, Result<Summary, MatrixError>) {
    var final := FinalManifest(m.plan, loop.runs, reference);
    if ending == BeforeFinal then (s, Err(Crashed))
    else if Validate(final).Some? then (s, Err(InvalidManifest(Validate(final).value)))
    else if s.final.Some? && Parsed(s.final.value) != ToDict(final) then (s, Err(FinalDiffers))
    else
      var saved := s.(final := Some(final));
      if ending == BeforeSummary then (saved, Err(Crashed))
      else
        var summary := Summary(final, loop.runIds, loop.completed, loop.failed);
        (saved.(summaries := s.summaries + [summary]), Ok(summary))
  }

  function VisitAll(m: Matrix, s: Store, call: Call, reference: Reference): (Store, Result<Summary, MatrixError>) {
    var loop := VisitPlans(m.plan.plannedRuns, |m.plan.plannedRuns|, s.attempts, call.launches, call.resume);
    var s' := s.(attempts := loop.attempts);
    if loop.stopped.Some? then (s', Err(loop.stopped.value))
    else Conclude(m, s', call.ending, loop, reference)
  }

  function Proceed(m: Matrix, s: Store, call: Call): (Store, Result<Summary, MatrixError>) {
    var (sweep, problem) := Calibrate(s.sweep, call);
    var s' := s.(sweep := sweep);
    if problem.Some? then (s', Err(problem.value))
    else
      var gate := Gate(m, sweep.supported, call.verified);
      if gate.Some? then (s', Err(gate.value)) else VisitAll(m, s', call, sweep.reference)
  }

  function AfterCall(m: Matrix, s: Store, call: Call): (Store, Result<Summary, MatrixError>) {
    if |s.summaries| > 0 then
      (s, if !call.resume || |s.summaries| != 1 then Err(SummaryExists) else Ok(s.summaries[0]))
    else
      var problem := PlanProblem(m, s.plan, call.resume);
      if problem.Some? then (s, Err(problem.value))
      else Proceed(m, s.(plan := if s.plan.Some? then s.plan else Some(m.plan)), call)
  }

  // The store

  class ArtifactStore {
    var attempts: seq<Attempt>
    var plan: Option<CorpusManifest>
    var sweep: Sweep
    var final: Option<CorpusManifest>
    var summaries: seq<Summary>

    constructor (s: Store)
      ensures State() == s
    {
      attempts, plan, sweep, final, summaries := s.attempts, s.plan, s.sweep, s.final, s.summaries;
    }

    function State(): Store
      reads this
    {
      Store(attempts, plan, sweep, final, summaries)
    }

    /** The scan of the saved run manifests for one plan. */
    method Scan(slot: PlannedRun) returns (r: Result<seq<string>, MatrixError>)
      ensures r == if Mismatched(attempts, slot) then Err(MismatchedAttempt) else Ok(AcceptedRuns(attempts, slot))
    {
      var accepted: seq<string> := [];
      for k := 0 to |attempts|
        invariant forall i :: 0 <= i < k && BelongsTo(attempts[i], slot) ==> attempts[i].planned == slot.config
        invariant accepted == AcceptedRuns(attempts[..k], slot)
      {
        var a := attempts[k];
        FilterMapSnoc(attempts[..k], a, AcceptedId(slot));
        assert attempts[..k + 1] == attempts[..k] + [a];
        if BelongsTo(a, slot) {
          if a.planned != slot.config { return Err(MismatchedAttempt); }
          if MeetsResumeTest(a) { accepted := accepted + [a.runId]; }
        }
      }
      assert attempts[..|attempts|] == attempts;
      return Ok(accepted);
    }

    method FindAccepted(slot: PlannedRun, resume: bool) returns (r: Result<Option<string>, MatrixError>)
      ensures r == Settle(slot, attempts, resume)
    {
      if !resume { return Ok(None); }
      var matches := Scan(slot);
      if matches.Err? { return Err(matches.error); }
      if |matches.value| > 1 { return Err(DuplicateAccepted); }
      if |matches.value| == 1 { return Ok(Some(matches.value[0])); }
      return Ok(None);
    }

    /** The loop over the plans; new attempts are saved as they come. */
    method VisitEach(m: Matrix, launches: seq<Launch>, resume: bool) returns (loop: Loop)
      modifies this`attempts
      ensures loop == VisitPlans(m.plan.plannedRuns, |m.plan.plannedRuns|, old(attempts), launches, resume)
      ensures attempts == loop.attempts
    {
      var plans := m.plan.plannedRuns;
      loop := Loop(attempts, 0, [], [], 0, 0, None);
      var k := 0;
      while k < |plans|
        invariant k <= |plans|
        invariant loop == VisitPlans(plans, k, old(attempts), launches, resume)
        invariant loop.stopped.None? && attempts == loop.attempts
      {
        var slot := plans[k];
        var settled := FindAccepted(slot, resume);
        if settled.Err? {
          loop := loop.(stopped := Some(settled.error));
        } else if settled.value.Some? {
          loop := TakeOver(loop, slot, settled.value.value);
        } else if loop.used >= |launches| {
          loop := loop.(stopped := Some(Crashed));
        } else {
          loop := Run(loop, slot, launches[loop.used]);
          attempts := loop.attempts;
        }
        k := k + 1;
        if loop.stopped.Some? {
          StoppedForGood(plans, k, |plans|, old(attempts), launches, resume);
          return;
        }
      }
    }

    method Finish(m: Matrix, ending: Ending, loop: Loop, reference: Reference) returns (r: Result<Summary, MatrixError>)
      modifies this`final, this`summaries
      ensures (State(), r) == Conclude(m, old(State()), ending, loop, reference)
    {
      if ending == BeforeFinal { return Err(Crashed); }
      var finalManifest := FinalManifest(m.plan, loop.runs, reference);
      var problem := Validate(finalManifest);
      if problem.Some? { return Err(InvalidManifest(problem.value)); }
      if final.Some? && Parsed(final.value) != ToDict(finalManifest) { return Err(FinalDiffers); }
      final := Some(finalManifest);
      if ending == BeforeSummary { return Err(Crashed); }
      var summary := Summary(finalManifest, loop.runIds, loop.completed, loop.failed);
      summaries := summaries + [summary];
      return Ok(summary);
    }

    method RunMatrix(m: Matrix, call: Call) returns (r: Result<Summary, MatrixError>)
      modifies this
      ensures (State(), r) == AfterCall(m, old(State()), call)
    {
      if |summaries| > 0 {
        if !call.resume || |summaries| != 1 { return Err(SummaryExists); }
        return Ok(summaries[0]);
      }
      var problem := PlanProblem(m, plan, call.resume);
      if problem.Some? { return Err(problem.value); }
      if plan.None? { plan := Some(m.plan); }
      var swept, refused := Calibrate(sweep, call).0, Calibrate(sweep, call).1;
      sweep := swept;
      if refused.Some? { return Err(refused.value); }
      var gate := Gate(m, sweep.supported, call.verified);
      if gate.Some? { return Err(gate.value); }
      var loop := VisitEach(m, call.launches, call.resume);
      if loop.stopped.Some? { return Err(loop.stopped.value); }
      r := Finish(m, call.ending, loop, sweep.reference);
    }
  }
}
