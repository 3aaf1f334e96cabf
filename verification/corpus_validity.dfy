/** When a corpus manifest is valid, in terms of its fields. */
module CorpusValidity {
  import opened Common
  import opened Lists
  import opened Corpus

  // Paths

  /** The parts with slashes between them. */
  function Joined(parts: seq<string>): string {
    if parts == [] then ""
    else if |parts| == 1 then parts[0]
    else Joined(parts[..|parts| - 1]) + "/" + parts[|parts| - 1]
  }

  lemma {:induction false} PartsJoin(path: string)
    ensures Parts(path) != [] && Joined(Parts(path)) == path
    ensures forall i :: 0 <= i < |Parts(path)| ==> '/' !in Parts(path)[i]
  {
    if path != "" {
      var n := |path| - 1;
      PartsJoin(path[..n]);
      var init, parts := Parts(path[..n]), Parts(path);
      assert path == path[..n] + [path[n]];
      if path[n] == '/' {
        assert parts[..|init|] == init;
        assert Joined(parts) == path[..n] + "/" + "";
      } else {
        assert parts[..|init| - 1] == init[..|init| - 1];
        assert parts[|init| - 1] == init[|init| - 1] + [path[n]];
      }
    }
  }

  // References and slots

  predicate IsLowerHex(c: char) {
    '0' <= c <= '9' || 'a' <= c <= 'f'
  }

  predicate IsSha256(s: string) {
    |s| == 64 && forall c :: c in s ==> IsLowerHex(c)
  }

  lemma DigestExactly(s: string)
    ensures IsHexDigest(s) <==> IsSha256(s)
  {
    if IsSha256(s) {
      forall i | 0 <= i < |s|
        ensures '0' <= s[i] <= '9' || 'a' <= s[i] <= 'f'
      {
        assert s[i] in s && IsLowerHex(s[i]);
      }
    }
  }

  /** A relative path that does not lead upwards, a digest, and a relationship that agrees with the flag. */
  predicate SoundReference(r: Reference) {
    && r.path != "" && !("/" <= r.path) && ".." !in Parts(r.path) && IsSha256(r.sha256)
    && ((r.relationship == "current_session" && r.createdInCurrentSession)
        || (r.relationship == "prior_session" && !r.createdInCurrentSession))
  }

  lemma ReferenceExactly(r: Reference)
    ensures ReferenceProblem(r).None? <==> SoundReference(r)
  {
    DigestExactly(r.sha256);
  }

  predicate SoundSlot(p: PlannedRun) {
    && p.planId != "" && p.family != "" && p.target != "" && p.seed >= 0 && p.configId != Some("")
    && (p.designation == "benign" || p.designation == "adversarial" || p.designation == "calibration")
  }

  lemma SlotExactly(p: PlannedRun)
    ensures PlannedRunProblem(p).None? <==> SoundSlot(p)
  {
  }

  // The slots together

  predicate Named(p: PlannedRun) {
    p.acceptedRunId.Some? && p.acceptedRunId.value != ""
  }

  /** No two slots name the same run. */
  ghost predicate NoneShared(runs: seq<PlannedRun>) {
    forall i, j :: 0 <= i < j < |runs| && Named(runs[i]) ==> runs[i].acceptedRunId != runs[j].acceptedRunId
  }

  lemma {:induction false} DeclaredDistinct(runs: seq<PlannedRun>)
    requires NoneShared(runs)
    ensures Distinct(DeclaredIds(runs))
  {
    if runs != [] {
      var init, last := runs[..|runs| - 1], runs[|runs| - 1];
      DeclaredDistinct(init);
      if Named(last) { DeclaredExactly(init, last.acceptedRunId.value); }
    }
  }

  lemma SharedExactly(runs: seq<PlannedRun>)
    ensures NoRepeats(DeclaredIds(runs)) <==> NoneShared(runs)
  {
    NoRepeatsMeansDistinct(DeclaredIds(runs));
    if NoneShared(runs) {
      DeclaredDistinct(runs);
    } else {
      var i, j :| 0 <= i < j < |runs| && Named(runs[i]) && runs[i].acceptedRunId == runs[j].acceptedRunId;
      DeclaredSharedRun(runs, i, j);
    }
  }

  ghost predicate PlanIdsDiffer(runs: seq<PlannedRun>) {
    forall i, j :: 0 <= i < j < |runs| ==> runs[i].planId != runs[j].planId
  }

  lemma PlanIdsExactly(runs: seq<PlannedRun>)
    ensures NoRepeats(PlanIds(runs)) <==> PlanIdsDiffer(runs)
  {
    NoRepeatsMeansDistinct(PlanIds(runs));
    if Distinct(PlanIds(runs)) {
      forall i, j | 0 <= i < j < |runs|
        ensures runs[i].planId != runs[j].planId
      {
        assert PlanIds(runs)[i] != PlanIds(runs)[j];
      }
    }
  }

  ghost predicate NamesRun(runs: seq<PlannedRun>, id: string) {
    id != "" && exists i :: 0 <= i < |runs| && runs[i].acceptedRunId == Some(id)
  }

  lemma AcceptedExactly(m: CorpusManifest)
    ensures Elements(m.acceptedRunIds) == Elements(DeclaredIds(m.plannedRuns))
            <==> forall id :: id in m.acceptedRunIds <==> NamesRun(m.plannedRuns, id)
  {
    forall id
      ensures id in Elements(DeclaredIds(m.plannedRuns)) <==> NamesRun(m.plannedRuns, id)
    {
      DeclaredExactly(m.plannedRuns, id);
    }
    forall id
      ensures id in Elements(m.acceptedRunIds) <==> id in m.acceptedRunIds
    {
    }
  }

  /** The slots are sound, their plan ids differ, no run fills two, and the accepted ids list exactly the runs
      that fill one, each once. */
  ghost predicate SoundRuns(m: CorpusManifest) {
    && (forall i :: 0 <= i < |m.plannedRuns| ==> SoundSlot(m.plannedRuns[i]))
    && PlanIdsDiffer(m.plannedRuns)
    && NoneShared(m.plannedRuns)
    && Distinct(m.acceptedRunIds)
    && (forall id :: id in m.acceptedRunIds <==> NamesRun(m.plannedRuns, id))
  }

  lemma RunsExactly(m: CorpusManifest)
    ensures ValidateRuns(m).None? <==> SoundRuns(m)
  {
    PlanIdsExactly(m.plannedRuns);
    SharedExactly(m.plannedRuns);
    NoRepeatsMeansDistinct(m.acceptedRunIds);
    AcceptedExactly(m);
    forall i | 0 <= i < |m.plannedRuns|
      ensures PlannedRunProblem(m.plannedRuns[i]).None? <==> SoundSlot(m.plannedRuns[i])
    {
      SlotExactly(m.plannedRuns[i]);
    }
  }

  /** A manifest is valid exactly if its header is complete, its reference sound and its slots are. */
  lemma ValidExactly(m: CorpusManifest)
    ensures Validate(m).None? <==>
      && m.schemaVersion == "2.0" && m.kind == "corpus_manifest" && m.seed >= 0
      && m.corpusId != "" && m.collectionId != "" && m.sessionId != "" && m.nodeId != "" && m.sourceCommit != ""
      && (m.archiveSha256 == None || IsSha256(m.archiveSha256.value))
      && (m.calibration == None || SoundReference(m.calibration.value))
      && m.plannedRuns != [] && SoundRuns(m)
  {
    RunsExactly(m);
    if m.archiveSha256.Some? { DigestExactly(m.archiveSha256.value); }
    if m.calibration.Some? { ReferenceExactly(m.calibration.value); }
  }
}
