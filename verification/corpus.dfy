/** Corpus manifests: which run fills which planned slot (corpus.py). */
module Corpus {
  import opened Common
  import opened Lists

  /** A workload's registered settings (workloads.py). */
  datatype Workload = Workload(family: string, target: string, designation: string, seed: int, configId: string,
    settings: map<string, string>)

  datatype Config = Config(workload: Workload, workloadName: string, repetition: nat)

  /** One declared slot; an accepted run may fill it once. */
  datatype PlannedRun = PlannedRun(
    planId: string, family: string, target: string, config: Config, designation: string,
    acceptedRunId: Option<string>, seed: int, configId: Option<string>)

  datatype Reference = Reference(path: string, sha256: string, relationship: string, createdInCurrentSession: bool)

  datatype CorpusManifest = CorpusManifest(
    corpusId: string, collectionId: string, sessionId: string, nodeId: string,
    plannedRuns: seq<PlannedRun>, acceptedRunIds: seq<string>,
    sourceCommit: string, sourceDirty: bool, archiveSha256: Option<string>, seed: int,
    calibration: Option<Reference>, schemaVersion: string, kind: string)

  datatype Problem =
    | UnsupportedSchema | MissingIdentity | NoPlannedRuns | WrongKind | NegativeSeed | BadDigest
    | BadReference | RepeatedPlanId | BadPlannedRun | RepeatedAssignment | RepeatedAcceptedId | AcceptedIdsDiffer

  const SCHEMA_VERSION := "2.0"
  const CORPUS_KIND := "corpus_manifest"

  predicate IsHexDigest(s: string) {
    |s| == 64 && forall i :: 0 <= i < |s| ==> '0' <= s[i] <= '9' || 'a' <= s[i] <= 'f'
  }

  /** `path.split("/")`. */
  function Parts(path: string): seq<string> {
    if path == "" then [""]
    else
      var init := Parts(path[..|path| - 1]);
      var c := path[|path| - 1];
      if c == '/' || init == [] then init + [""] else init[..|init| - 1] + [init[|init| - 1] + [c]]
  }

  function PlannedRunProblem(p: PlannedRun): Option<Problem> {
    if p.planId == "" || p.family == "" || p.target == "" then Some(BadPlannedRun)
    else if p.designation !in {"benign", "adversarial", "calibration"} then Some(BadPlannedRun)
    else if p.seed < 0 then Some(BadPlannedRun)
    else if p.configId == Some("") then Some(BadPlannedRun)
    else None
  }

  function ReferenceProblem(r: Reference): Option<Problem> {
    if r.path == "" || r.path[0] == '/' || ".." in Parts(r.path) then Some(BadReference)
    else if !IsHexDigest(r.sha256) then Some(BadReference)
    else if r.relationship !in {"current_session", "prior_session"} then Some(BadReference)
    else if r.createdInCurrentSession != (r.relationship == "current_session") then Some(BadReference)
    else None
  }

  function PlanIds(runs: seq<PlannedRun>): (r: seq<string>)
    ensures |r| == |runs| && forall i :: 0 <= i < |r| ==> r[i] == runs[i].planId
  {
    seq(|runs|, i requires 0 <= i < |runs| => runs[i].planId)
  }

  /** The run ids that are present: `... if accepted_run_id is not None`. */
  function AssignedIds(runs: seq<PlannedRun>): seq<string> {
    FilterMap(runs, (p: PlannedRun) => p.acceptedRunId)
  }

  /** The run ids that are truthy: `... if accepted_run_id`. */
  function DeclaredIds(runs: seq<PlannedRun>): seq<string> {
    FilterMap(runs, (p: PlannedRun) => if p.acceptedRunId == Some("") then None else p.acceptedRunId)
  }

  function Elements(s: seq<string>): set<string> {
    set x | x in s
  }

  /** `len(s) == len(set(s))`. */
  predicate NoRepeats(s: seq<string>) {
    |s| == |Elements(s)|
  }

  function Validate(m: CorpusManifest): Option<Problem> {
    if m.schemaVersion != SCHEMA_VERSION then Some(UnsupportedSchema)
    else if "" in {m.corpusId, m.collectionId, m.sessionId, m.nodeId, m.sourceCommit} then Some(MissingIdentity)
    else if m.plannedRuns == [] then Some(NoPlannedRuns)
    else if m.kind != CORPUS_KIND then Some(WrongKind)
    else if m.seed < 0 then Some(NegativeSeed)
    else if m.archiveSha256.Some? && !IsHexDigest(m.archiveSha256.value) then Some(BadDigest)
    else if m.calibration.Some? && ReferenceProblem(m.calibration.value).Some? then Some(BadReference)
    else ValidateRuns(m)
  }

  function ValidateRuns(m: CorpusManifest): Option<Problem> {
    var declared := DeclaredIds(m.plannedRuns);
    if !NoRepeats(PlanIds(m.plannedRuns)) then Some(RepeatedPlanId)
    else if exists i :: 0 <= i < |m.plannedRuns| && PlannedRunProblem(m.plannedRuns[i]).Some? then Some(BadPlannedRun)
    else if !NoRepeats(declared) then Some(RepeatedAssignment)
    else if !NoRepeats(m.acceptedRunIds) then Some(RepeatedAcceptedId)
    else if Elements(m.acceptedRunIds) != Elements(declared) then Some(AcceptedIdsDiffer)
    else None
  }

  predicate FilledBy(m: CorpusManifest, i: int, runId: string)
    requires 0 <= i < |m.plannedRuns|
  {
    m.plannedRuns[i].acceptedRunId == Some(runId)
  }

  /** The first slot filled by this run. */
  function FirstFilledBy(runs: seq<PlannedRun>, runId: string): Option<PlannedRun> {
    if runs == [] then None
    else if runs[0].acceptedRunId == Some(runId) then Some(runs[0])
    else FirstFilledBy(runs[1..], runId)
  }

  function PlannedForRun(m: CorpusManifest, runId: string): Option<PlannedRun> {
    FirstFilledBy(m.plannedRuns, runId)
  }

  predicate Allows(m: CorpusManifest, runId: string, designation: string) {
    var item := PlannedForRun(m, runId);
    item.Some? && runId in m.acceptedRunIds && item.value.designation == designation
  }

  // Repeats

  lemma {:induction false} NoRepeatsMeansDistinct(s: seq<string>)
    ensures |Elements(s)| <= |s|
    ensures NoRepeats(s) <==> Distinct(s)
  {
    if s != [] {
      var init, last := s[..|s| - 1], s[|s| - 1];
      NoRepeatsMeansDistinct(init);
      assert Elements(s) == Elements(init) + {last};
      assert forall i :: 0 <= i < |init| ==> init[i] == s[i];
      if last in init {
        assert Elements(s) == Elements(init);
        var k :| 0 <= k < |init| && init[k] == last;
        assert s[k] == s[|s| - 1];
      } else {
        assert forall i :: 0 <= i < |init| ==> s[i] != last;
      }
    }
  }

  // Assignments of runs to slots

  /** No two slots hold the same run. */
  ghost predicate NoSharedRun(runs: seq<PlannedRun>) {
    forall i, j :: 0 <= i < j < |runs| && runs[i].acceptedRunId.Some? ==> runs[i].acceptedRunId != runs[j].acceptedRunId
  }

  lemma {:induction false} AssignedExactly(runs: seq<PlannedRun>, id: string)
    ensures id in AssignedIds(runs) <==> exists i :: 0 <= i < |runs| && runs[i].acceptedRunId == Some(id)
  {
    if runs != [] {
      var init := runs[..|runs| - 1];
      AssignedExactly(init, id);
      assert forall i :: 0 <= i < |init| ==> init[i] == runs[i];
    }
  }

  lemma {:induction false} DeclaredExactly(runs: seq<PlannedRun>, id: string)
    ensures id in DeclaredIds(runs) <==> id != "" && exists i :: 0 <= i < |runs| && runs[i].acceptedRunId == Some(id)
  {
    if runs != [] {
      var init := runs[..|runs| - 1];
      DeclaredExactly(init, id);
      assert forall i :: 0 <= i < |init| ==> init[i] == runs[i];
    }
  }

  lemma {:induction false} AssignedDistinct(runs: seq<PlannedRun>)
    requires NoSharedRun(runs)
    ensures Distinct(AssignedIds(runs))
  {
    if runs != [] {
      var init, last := runs[..|runs| - 1], runs[|runs| - 1];
      AssignedDistinct(init);
      if last.acceptedRunId.Some? { AssignedExactly(init, last.acceptedRunId.value); }
    }
  }

  lemma {:induction false} DeclaredSharedRun(runs: seq<PlannedRun>, i: nat, j: nat)
    requires i < j < |runs| && runs[i].acceptedRunId == runs[j].acceptedRunId
    requires runs[i].acceptedRunId.Some? && runs[i].acceptedRunId != Some("")
    ensures !Distinct(DeclaredIds(runs))
  {
    var init, last := runs[..|runs| - 1], runs[|runs| - 1];
    var ids := DeclaredIds(init);
    if j == |runs| - 1 {
      var id := last.acceptedRunId.value;
      DeclaredExactly(init, id);
      assert init[i] == runs[i];
      var k :| 0 <= k < |ids| && ids[k] == id;
      assert DeclaredIds(runs) == ids + [id];
      assert DeclaredIds(runs)[k] == DeclaredIds(runs)[|ids|];
    } else {
      DeclaredSharedRun(init, i, j);
      var a, b :| 0 <= a < b < |ids| && ids[a] == ids[b];
      assert DeclaredIds(runs)[a] == DeclaredIds(runs)[b];
    }
  }

  lemma {:induction false} DeclaredIsAssigned(runs: seq<PlannedRun>)
    requires forall i :: 0 <= i < |runs| ==> runs[i].acceptedRunId != Some("")
    ensures DeclaredIds(runs) == AssignedIds(runs)
  {
    if runs != [] { DeclaredIsAssigned(runs[..|runs| - 1]); }
  }

  lemma {:induction false} FirstFilledByFinds(runs: seq<PlannedRun>, runId: string)
    ensures var r := FirstFilledBy(runs, runId);
      && (r.Some? ==> r.value in runs && r.value.acceptedRunId == Some(runId))
      && (r.None? ==> forall i :: 0 <= i < |runs| ==> runs[i].acceptedRunId != Some(runId))
  {
    if runs != [] && runs[0].acceptedRunId != Some(runId) { FirstFilledByFinds(runs[1..], runId); }
  }

  // What a valid manifest gives

  /** On a valid manifest a run is allowed under a designation exactly when a slot of that designation is
      filled by it; that slot is the only one it fills. */
  lemma AllowsExactly(m: CorpusManifest, runId: string, designation: string)
    requires Validate(m).None?
    ensures Allows(m, runId, designation) <==>
      runId != "" && exists i ::
        0 <= i < |m.plannedRuns| && FilledBy(m, i, runId) && m.plannedRuns[i].designation == designation
    ensures runId != "" ==> forall i, j :: (0 <= i < |m.plannedRuns| && 0 <= j < |m.plannedRuns|
      && FilledBy(m, i, runId) && FilledBy(m, j, runId)) ==> i == j
  {
    var runs := m.plannedRuns;
    FirstFilledByFinds(runs, runId);
    DeclaredExactly(runs, runId);
    assert runId in m.acceptedRunIds <==> runId in DeclaredIds(runs) by {
      assert runId in Elements(m.acceptedRunIds) <==> runId in Elements(DeclaredIds(runs));
    }
    if runId != "" {
      SlotsAreUnique(m, runId);
      var item := PlannedForRun(m, runId);
      if item.Some? {
        var k :| 0 <= k < |runs| && runs[k] == item.value;
        assert FilledBy(m, k, runId);
      } else {
        assert forall i :: 0 <= i < |runs| ==> !FilledBy(m, i, runId);
      }
    }
  }

  lemma SlotsAreUnique(m: CorpusManifest, runId: string)
    requires Validate(m).None? && runId != ""
    ensures forall i, j ::
      0 <= i < |m.plannedRuns| && 0 <= j < |m.plannedRuns| && FilledBy(m, i, runId) && FilledBy(m, j, runId) ==> i == j
  {
    var runs := m.plannedRuns;
    NoRepeatsMeansDistinct(DeclaredIds(runs));
    forall i: nat, j: nat | i < j < |runs| && runs[i].acceptedRunId == Some(runId)
      ensures runs[j].acceptedRunId != Some(runId)
    {
      if runs[j].acceptedRunId == Some(runId) { DeclaredSharedRun(runs, i, j); }
    }
  }

  // Filling the slots of a valid plan

  /** `runs` are the same slots, some of them filled. */
  ghost predicate Fills(plans: seq<PlannedRun>, runs: seq<PlannedRun>) {
    |runs| == |plans| && forall i :: 0 <= i < |plans| ==> runs[i] == plans[i].(acceptedRunId := runs[i].acceptedRunId)
  }

  function FinalManifest(plan: CorpusManifest, runs: seq<PlannedRun>, reference: Reference): CorpusManifest {
    plan.(plannedRuns := runs, acceptedRunIds := AssignedIds(runs), calibration := Some(reference))
  }

  /** Filling the slots of a valid plan with non-empty run ids yields a valid manifest exactly when no run
      fills two slots. */
  lemma FilledPlanIsValid(plan: CorpusManifest, runs: seq<PlannedRun>, reference: Reference)
    requires Validate(plan).None? && ReferenceProblem(reference).None?
    requires Fills(plan.plannedRuns, runs)
    requires forall i :: 0 <= i < |runs| ==> runs[i].acceptedRunId != Some("")
    ensures Validate(FinalManifest(plan, runs, reference)).None? <==> NoSharedRun(runs)
  {
    var final := FinalManifest(plan, runs, reference);
    DeclaredIsAssigned(runs);
    NoRepeatsMeansDistinct(AssignedIds(runs));
    if NoSharedRun(runs) {
      AssignedDistinct(runs);
      assert PlanIds(runs) == PlanIds(plan.plannedRuns);
      SlotsStayValid(plan.plannedRuns, runs);
      assert ValidateRuns(final).None?;
    }
    if Validate(final).None? {
      forall i: nat, j: nat | i < j < |runs| && runs[i].acceptedRunId.Some?
        ensures runs[i].acceptedRunId != runs[j].acceptedRunId
      {
        if runs[i].acceptedRunId == runs[j].acceptedRunId { DeclaredSharedRun(runs, i, j); }
      }
    }
  }

  lemma SlotsStayValid(plans: seq<PlannedRun>, runs: seq<PlannedRun>)
    requires Fills(plans, runs) && forall i :: 0 <= i < |plans| ==> PlannedRunProblem(plans[i]).None?
    ensures forall i :: 0 <= i < |runs| ==> PlannedRunProblem(runs[i]).None?
  {
    forall i | 0 <= i < |runs|
      ensures PlannedRunProblem(runs[i]).None?
    {
      assert PlannedRunProblem(plans[i]).None?;
    }
  }
}
