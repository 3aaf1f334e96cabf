/** What a window report and a decision say, in terms of the stored samples and moments. */
module WindowReports {
  import opened Common
  import opened CentralProtocol
  import opened CentralServer
  import Ordering

  // Health

  /** Never seen; seen longer ago than the limit; or seen at most that long ago. */
  predicate IsHealth<K>(h: Health, seen: map<K, Instant>, key: K, now: Instant, limit: int) {
    match h
    case Missing => key !in seen
    case Stale(age) => key in seen && age == now - seen[key] && seen[key] + limit < now
    case Healthy(age) => key in seen && age == now - seen[key] && now <= seen[key] + limit
  }

  lemma HealthExactly<K>(h: Health, seen: map<K, Instant>, key: K, now: Instant, limit: int)
    ensures IsHealth(h, seen, key, now, limit) <==> h == HealthOf(Lookup(seen, key), now, limit)
  {
  }

  // Samples of a window

  predicate Within(e: Entry, start: Instant, end: Instant) {
    e.sample.observedAt >= start && e.sample.observedAt < end
  }

  /** The places of a ledger that hold a sample of the window. */
  function Places(entries: seq<Entry>, start: Instant, end: Instant): set<int> {
    set i | 0 <= i < |entries| && Within(entries[i], start, end)
  }

  /** Those whose sample has the field. */
  function FieldPlaces(entries: seq<Entry>, start: Instant, end: Instant, field: string): set<int> {
    set i | 0 <= i < |entries| && Within(entries[i], start, end) && field in entries[i].sample.readings
  }

  /** The sum of the field over the window. */
  function FieldTotal(entries: seq<Entry>, start: Instant, end: Instant, field: string): real {
    if entries == [] then 0.0
    else
      var last := entries[|entries| - 1];
      FieldTotal(entries[..|entries| - 1], start, end, field)
      + if Within(last, start, end) && field in last.sample.readings then last.sample.readings[field] else 0.0
  }

  lemma PlacesSnoc(entries: seq<Entry>, start: Instant, end: Instant, field: string)
    requires entries != []
    ensures var n := |entries| - 1;
      && |Places(entries, start, end)| == |Places(entries[..n], start, end)|
        + (if Within(entries[n], start, end) then 1 else 0)
      && |FieldPlaces(entries, start, end, field)| == |FieldPlaces(entries[..n], start, end, field)|
         + (if Within(entries[n], start, end) && field in entries[n].sample.readings then 1 else 0)
  {
    var n := |entries| - 1;
    assert Places(entries, start, end)
        == Places(entries[..n], start, end) + if Within(entries[n], start, end) then {n} else {};
    assert FieldPlaces(entries, start, end, field) == FieldPlaces(entries[..n], start, end, field)
         + if Within(entries[n], start, end) && field in entries[n].sample.readings then {n} else {};
  }

  lemma {:induction false} SelectedCounts(entries: seq<Entry>, start: Instant, end: Instant, field: string)
    ensures var selected := Selected(entries, start, end);
      && |selected| == |Places(entries, start, end)|
      && |ReadingsOf(selected, field)| == |FieldPlaces(entries, start, end, field)|
      && Ordering.Total(ReadingsOf(selected, field)) == FieldTotal(entries, start, end, field)
  {
    if entries != [] {
      var n := |entries| - 1;
      SelectedCounts(entries[..n], start, end, field);
      PlacesSnoc(entries, start, end, field);
      var selected := Selected(entries[..n], start, end);
      assert (selected + [entries[n]])[..|selected|] == selected;
      var values := ReadingsOf(selected, field);
      if field in entries[n].sample.readings {
        assert (values + [entries[n].sample.readings[field]])[..|values|] == values;
      }
    }
  }

  lemma {:induction false} SelectedAre(entries: seq<Entry>, start: Instant, end: Instant, e: Entry)
    ensures e in Selected(entries, start, end) <==> e in entries && Within(e, start, end)
  {
    if entries != [] {
      var n := |entries| - 1;
      SelectedAre(entries[..n], start, end, e);
      assert entries == entries[..n] + [entries[n]];
    }
  }

  /** The mean of the field over the samples of the window that have it; none if no sample has. */
  predicate IsMean(mean: Option<real>, entries: seq<Entry>, start: Instant, end: Instant, field: string) {
    match mean
    case None => FieldPlaces(entries, start, end, field) == {}
    case Some(m) =>
      FieldPlaces(entries, start, end, field) != {}
      && m * |FieldPlaces(entries, start, end, field)| as real == FieldTotal(entries, start, end, field)
  }

  lemma MeanIsMean(entries: seq<Entry>, start: Instant, end: Instant, field: string)
    ensures IsMean(MeanReading(Selected(entries, start, end), field), entries, start, end, field)
  {
    SelectedCounts(entries, start, end, field);
  }

  // The report

  ghost predicate IsNodeSummary(x: NodeSummary, cfg: Config, s: ServerState, n: NodeId, start: Instant, end: Instant,
      now: Instant)
  {
    var entries := Ledger(s.nodeSamples, n);
    && IsHealth(x.health, s.nodeSeen, n, now, cfg.staleAfter)
    && x.sampleCount == |Places(entries, start, end)|
    && (forall f :: f in x.fieldMeans <==> f in TELEMETRY_FIELDS)
    && (forall f :: f in x.fieldMeans ==> IsMean(x.fieldMeans[f], entries, start, end, f))
  }

  lemma NodeSummaryIs(cfg: Config, s: ServerState, n: NodeId, start: Instant, end: Instant, now: Instant)
    ensures IsNodeSummary(NodeSummaryOf(cfg, s, n, start, end, now), cfg, s, n, start, end, now)
  {
    var entries := Ledger(s.nodeSamples, n);
    HealthExactly(HealthOf(Lookup(s.nodeSeen, n), now, cfg.staleAfter), s.nodeSeen, n, now, cfg.staleAfter);
    SelectedCounts(entries, start, end, "");
    forall f | f in TELEMETRY_FIELDS
      ensures IsMean(MeanReading(Selected(entries, start, end), f), entries, start, end, f)
    {
      MeanIsMean(entries, start, end, f);
    }
  }

  ghost predicate IsAgentSummary(x: AgentSummary, cfg: Config, s: ServerState, a: AgentId, start: Instant, end: Instant,
      now: Instant)
    requires a in cfg.registrations
  {
    var entries := Ledger(s.agentSamples, a);
    && x.nodeId == cfg.registrations[a].nodeId
    && IsHealth(x.health, s.agentSeen, a, now, cfg.staleAfter)
    && x.sampleCount == |Places(entries, start, end)|
    && (forall k :: k in x.ranks <==> exists e :: e in entries && Within(e, start, end) && e.sample.rank == k)
    && (forall g :: g in x.gpuUuids <==> exists e :: e in entries && Within(e, start, end) && e.sample.gpuUuid == g)
  }

  lemma RanksAre(entries: seq<Entry>, start: Instant, end: Instant, k: int)
    ensures k in RanksOf(Selected(entries, start, end))
            <==> exists e :: e in entries && Within(e, start, end) && e.sample.rank == k
  {
    forall e
      ensures e in Selected(entries, start, end) <==> e in entries && Within(e, start, end)
    {
      SelectedAre(entries, start, end, e);
    }
  }

  lemma GpusAre(entries: seq<Entry>, start: Instant, end: Instant, g: string)
    ensures g in GpusOf(Selected(entries, start, end))
            <==> exists e :: e in entries && Within(e, start, end) && e.sample.gpuUuid == g
  {
    forall e
      ensures e in Selected(entries, start, end) <==> e in entries && Within(e, start, end)
    {
      SelectedAre(entries, start, end, e);
    }
  }

  lemma AgentSummaryIs(cfg: Config, s: ServerState, a: AgentId, start: Instant, end: Instant, now: Instant)
    requires a in cfg.registrations
    ensures IsAgentSummary(AgentSummaryOf(cfg, s, a, start, end, now), cfg, s, a, start, end, now)
  {
    var entries := Ledger(s.agentSamples, a);
    HealthExactly(HealthOf(Lookup(s.agentSeen, a), now, cfg.staleAfter), s.agentSeen, a, now, cfg.staleAfter);
    SelectedCounts(entries, start, end, "");
    forall k
      ensures k in RanksOf(Selected(entries, start, end))
              <==> exists e :: e in entries && Within(e, start, end) && e.sample.rank == k
    {
      RanksAre(entries, start, end, k);
    }
    forall g
      ensures g in GpusOf(Selected(entries, start, end))
              <==> exists e :: e in entries && Within(e, start, end) && e.sample.gpuUuid == g
    {
      GpusAre(entries, start, end, g);
    }
  }

  /** Seen within the limit, with a sample in the window. */
  predicate Present<K>(seen: map<K, Instant>, ledgers: map<K, seq<Entry>>, key: K, start: Instant, end: Instant,
      now: Instant, limit: int)
  {
    && key in seen && now - seen[key] <= limit
    && key in ledgers && exists i :: 0 <= i < |ledgers[key]| && Within(ledgers[key][i], start, end)
  }

  lemma PlacesEmpty(entries: seq<Entry>, start: Instant, end: Instant)
    ensures |Places(entries, start, end)| == 0 <==> forall i :: 0 <= i < |entries| ==> !Within(entries[i], start, end)
  {
    if i :| 0 <= i < |entries| && Within(entries[i], start, end) { assert i in Places(entries, start, end); }
  }

  /** An entry is absent from the report's window exactly if it is not present. */
  lemma AbsentExactly<K>(h: Health, count: nat, seen: map<K, Instant>, ledgers: map<K, seq<Entry>>, key: K,
      start: Instant, end: Instant, now: Instant, limit: int)
    requires IsHealth(h, seen, key, now, limit) && count == |Places(Ledger(ledgers, key), start, end)|
    ensures Absent(h, count) <==> !Present(seen, ledgers, key, start, end, now, limit)
  {
    PlacesEmpty(Ledger(ledgers, key), start, end);
  }

  /** The report of a window: a summary of every expected node and agent, the missing ones, and whether
      nobody is missing. */
  lemma ReportExactly(cfg: Config, s: ServerState, start: Instant, end: Instant, nodeNow: Instant, agentNow: Instant,
      r: Aggregate)
    requires ValidConfig(cfg) && Reports(cfg, s, start, end, nodeNow, agentNow, r)
    ensures forall n :: n in cfg.expectedNodes ==>
      n in r.nodes && IsNodeSummary(r.nodes[n], cfg, s, n, start, end, nodeNow)
    ensures forall a :: a in cfg.expectedAgents ==>
      a in r.agents && IsAgentSummary(r.agents[a], cfg, s, a, start, end, agentNow)
  {
    forall n | n in cfg.expectedNodes
      ensures n in r.nodes && IsNodeSummary(r.nodes[n], cfg, s, n, start, end, nodeNow)
    {
      NodeSummaryIs(cfg, s, n, start, end, nodeNow);
    }
    forall a | a in cfg.expectedAgents
      ensures a in r.agents && IsAgentSummary(r.agents[a], cfg, s, a, start, end, agentNow)
    {
      AgentSummaryIs(cfg, s, a, start, end, agentNow);
    }
  }

  /** A node or agent is listed as missing exactly if it was not seen within the limit or has no sample in
      the window; the report is complete exactly if none is. */
  lemma MissingExactly(cfg: Config, s: ServerState, start: Instant, end: Instant, nodeNow: Instant, agentNow: Instant,
      r: Aggregate)
    requires ValidConfig(cfg) && Reports(cfg, s, start, end, nodeNow, agentNow, r)
    ensures forall n :: n in r.missingNodes <==>
      n in cfg.expectedNodes && !Present(s.nodeSeen, s.nodeSamples, n, start, end, nodeNow, cfg.staleAfter)
    ensures forall a :: a in r.missingAgents <==>
      a in cfg.expectedAgents && !Present(s.agentSeen, s.agentSamples, a, start, end, agentNow, cfg.staleAfter)
    ensures r.complete <==> r.missingNodes == {} && r.missingAgents == {}
  {
    ReportExactly(cfg, s, start, end, nodeNow, agentNow, r);
    forall n
      ensures n in r.missingNodes <==>
        n in cfg.expectedNodes && !Present(s.nodeSeen, s.nodeSamples, n, start, end, nodeNow, cfg.staleAfter)
    {
      if n in cfg.expectedNodes {
        AbsentExactly(r.nodes[n].health, r.nodes[n].sampleCount, s.nodeSeen, s.nodeSamples, n, start, end, nodeNow,
          cfg.staleAfter);
      }
    }
    forall a
      ensures a in r.missingAgents <==>
        a in cfg.expectedAgents && !Present(s.agentSeen, s.agentSamples, a, start, end, agentNow, cfg.staleAfter)
    {
      if a in cfg.expectedAgents {
        AbsentExactly(r.agents[a].health, r.agents[a].sampleCount, s.agentSeen, s.agentSamples, a, start, end, agentNow,
          cfg.staleAfter);
      }
    }
  }

  // The decision

  /** A complete report is scored: an error exactly for a score outside [0, 1], and an abstention exactly for
      a score within the margin around the threshold.  An incomplete report is never scored. */
  lemma DecidedExactly(d: DetectorService, r: Aggregate)
    ensures d.Decide(r).Err? <==> r.complete && (d.scorer(r) < 0.0 || d.scorer(r) > 1.0)
    ensures d.Decide(r).Ok? ==>
      && d.Decide(r).value.score == (if r.complete then Some(d.scorer(r)) else None)
      && (d.Decide(r).value.abstained <==>
            !r.complete || d.threshold - d.margin <= d.scorer(r) <= d.threshold + d.margin)
      && d.Decide(r).value.listedNodes == (if r.complete then {} else r.missingNodes)
  {
  }

  /** From the stored samples to the decision: a score exactly if everybody expected is present and the
      scorer stays in its range. */
  lemma ScoredExactly(cfg: Config, s: ServerState, start: Instant, end: Instant, nodeNow: Instant, agentNow: Instant,
      r: Aggregate, d: DetectorService)
    requires ValidConfig(cfg) && Reports(cfg, s, start, end, nodeNow, agentNow, r)
    ensures (d.Decide(r).Ok? && d.Decide(r).value.score.Some?) <==>
      && (forall n :: n in cfg.expectedNodes ==>
            Present(s.nodeSeen, s.nodeSamples, n, start, end, nodeNow, cfg.staleAfter))
      && (forall a :: a in cfg.expectedAgents ==>
            Present(s.agentSeen, s.agentSamples, a, start, end, agentNow, cfg.staleAfter))
      && 0.0 <= d.scorer(r) <= 1.0
  {
    MissingExactly(cfg, s, start, end, nodeNow, agentNow, r);
    DecidedExactly(d, r);
    if n :| n in r.missingNodes {
      assert n in cfg.expectedNodes;
    }
    if a :| a in r.missingAgents {
      assert a in cfg.expectedAgents;
    }
  }
}
