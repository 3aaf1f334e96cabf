/** The in-memory central service (central/server.py) as the object it is: `Ingest` updates the
    fields step by step, the health and aggregation methods fill dictionaries by loops. */
module CentralServer {
  import opened Common
  import opened CentralProtocol
  import Ordering

  // ----- health

  datatype Health = Missing | Stale(age: int) | Healthy(age: int)

  function HealthOf(lastSeen: Option<Instant>, now: Instant, staleAfter: int): Health {
    if lastSeen.None? then Missing
    else if now - lastSeen.value > staleAfter then Stale(now - lastSeen.value)
    else Healthy(now - lastSeen.value)
  }

  // ----- aggregation

  predicate InWindow(e: Entry, start: Instant, end: Instant) {
    start <= e.sample.observedAt < end
  }

  /** The entries of a ledger that fall in the window, in ledger order. */
  function Selected(entries: seq<Entry>, start: Instant, end: Instant): seq<Entry> {
    if entries == [] then []
    else
      var init := Selected(entries[..|entries| - 1], start, end);
      var last := entries[|entries| - 1];
      if InWindow(last, start, end) then init + [last] else init
  }

  const TELEMETRY_FIELDS: seq<string> := [
    "gpu_utilization_pct", "memory_utilization_pct", "memory_used_bytes", "memory_total_bytes", "power_draw_w",
    "temperature_c", "sm_clock_mhz", "memory_clock_mhz", "pcie_tx_bytes_per_s", "pcie_rx_bytes_per_s"]

  /** The values of one field, where supported. */
  function ReadingsOf(entries: seq<Entry>, field: string): seq<real> {
    if entries == [] then []
    else
      var init, last := ReadingsOf(entries[..|entries| - 1], field), entries[|entries| - 1].sample;
      if field in last.readings then init + [last.readings[field]] else init
  }

  function MeanReading(entries: seq<Entry>, field: string): Option<real> {
    var values := ReadingsOf(entries, field);
    if values == [] then None else Some(Ordering.Total(values) / |values| as real)
  }

  function FieldMeansOf(entries: seq<Entry>): map<string, Option<real>> {
    map field | field in TELEMETRY_FIELDS :: MeanReading(entries, field)
  }

  function RanksOf(entries: seq<Entry>): set<int> {
    set e | e in entries :: e.sample.rank
  }

  function GpusOf(entries: seq<Entry>): set<string> {
    set e | e in entries :: e.sample.gpuUuid
  }

  datatype AgentHealthEntry = AgentHealthEntry(nodeId: NodeId, health: Health)

  datatype NodeSummary = NodeSummary(health: Health, sampleCount: nat, fieldMeans: map<string, Option<real>>)

  datatype AgentSummary = AgentSummary(nodeId: NodeId, health: Health, sampleCount: nat, ranks: set<int>,
    gpuUuids: set<string>)

  datatype Aggregate = Aggregate(
    nodes: map<NodeId, NodeSummary>, agents: map<AgentId, AgentSummary>,
    missingNodes: set<NodeId>, missingAgents: set<AgentId>,
    complete: bool, evidence: set<MessageId>)

  datatype WindowError = EndNotAfterStart

  function NodeSummaryOf(cfg: Config, s: ServerState, n: NodeId, start: Instant, end: Instant,
      now: Instant): NodeSummary {
    var selected := Selected(Ledger(s.nodeSamples, n), start, end);
    NodeSummary(HealthOf(Lookup(s.nodeSeen, n), now, cfg.staleAfter), |selected|, FieldMeansOf(selected))
  }

  function AgentSummaryOf(cfg: Config, s: ServerState, a: AgentId, start: Instant, end: Instant,
      now: Instant): AgentSummary
    requires a in cfg.registrations
  {
    var selected := Selected(Ledger(s.agentSamples, a), start, end);
    AgentSummary(cfg.registrations[a].nodeId, HealthOf(Lookup(s.agentSeen, a), now, cfg.staleAfter),
                 |selected|, RanksOf(selected), GpusOf(selected))
  }

  predicate Absent(health: Health, sampleCount: nat) {
    sampleCount == 0 || !health.Healthy?
  }

  /** The batches with a sample in the window, read off the given ledgers. */
  ghost predicate Contributes<K(!new)>(
      ledgers: map<K, seq<Entry>>, keys: seq<K>, b: MessageId, start: Instant, end: Instant) {
    exists k, e :: k in keys && e in Ledger(ledgers, k) && InWindow(e, start, end) && e.batchId == b
  }

  /** What `aggregate_window` reports: node health is read at `nodeNow`, agent health at `agentNow`. */
  ghost predicate Reports(cfg: Config, s: ServerState, start: Instant, end: Instant, nodeNow: Instant,
      agentNow: Instant, r: Aggregate)
    requires forall a :: a in cfg.expectedAgents ==> a in cfg.registrations
  {
    && (forall n :: n in r.nodes <==> n in cfg.expectedNodes)
    && (forall n :: n in r.nodes ==> r.nodes[n] == NodeSummaryOf(cfg, s, n, start, end, nodeNow))
    && (forall a :: a in r.agents <==> a in cfg.expectedAgents)
    && (forall a :: a in r.agents ==> r.agents[a] == AgentSummaryOf(cfg, s, a, start, end, agentNow))
    && (forall n :: n in r.missingNodes <==> n in r.nodes && Absent(r.nodes[n].health, r.nodes[n].sampleCount))
    && (forall a :: a in r.missingAgents <==> a in r.agents && Absent(r.agents[a].health, r.agents[a].sampleCount))
    && r.complete == (r.missingNodes == {} && r.missingAgents == {})
    && (forall b :: b in r.evidence <==>
          Contributes(s.nodeSamples, cfg.expectedNodes, b, start, end)
          || Contributes(s.agentSamples, cfg.expectedAgents, b, start, end))
  }

  // ----- the service

  class CentralIngestionService {
    const cfg: Config
    var lastSequenceByAgent: map<AgentId, int>
    var lastBatchByAgent: map<AgentId, MessageId>
    var lastSeenByNode: map<NodeId, Instant>
    var lastSeenByAgent: map<AgentId, Instant>
    var seenMessageIds: set<MessageId>
    var acceptedMessageDigests: map<MessageId, Digest>
    var acceptedSamplesByNode: map<NodeId, seq<Entry>>
    var acceptedSamplesByAgent: map<AgentId, seq<Entry>>

    function State(): ServerState
      reads this
    {
      ServerState(lastSequenceByAgent, lastBatchByAgent, lastSeenByNode, lastSeenByAgent,
                  seenMessageIds, acceptedMessageDigests, acceptedSamplesByNode, acceptedSamplesByAgent)
    }

    constructor (cfg: Config)
      requires ValidConfig(cfg)
      ensures this.cfg == cfg && State() == EMPTY_STATE
    {
      this.cfg := cfg;
      lastSequenceByAgent, lastBatchByAgent := map[], map[];
      lastSeenByNode, lastSeenByAgent := map[], map[];
      seenMessageIds, acceptedMessageDigests := {}, map[];
      acceptedSamplesByNode, acceptedSamplesByAgent := map[], map[];
    }

    function MakeAck(messageId: MessageId, reason: Reason, agent: Option<AgentId>): Ack
      reads this
    {
      Ack(messageId, reason in {Accepted, AlreadyAccepted}, reason,
          if agent.None? then None else Lookup(lastSequenceByAgent, agent.value))
    }

    /** The chain of guards of `ingest`; the first one that holds decides. */
    method Check(m: Message, now: Instant) returns (reason: Reason)
      ensures reason == Verdict(cfg, State(), m, now)
    {
      var e := m.envelope;
      if e.encodedBytes > cfg.maximumPayloadBytes { return PayloadTooLarge; }
      if e.protocolVersion != PROTOCOL_VERSION { return UnsupportedProtocolVersion; }
      if e.agentId !in cfg.registrations { return UnknownAgent; }
      var registration := cfg.registrations[e.agentId];
      if e.nodeId != registration.nodeId { return NodeIdentityMismatch; }
      if !Verifies(m, registration.secret) { return InvalidSignature; }
      if e.session != cfg.session { return SessionMismatch; }
      var failure := ParseFailure(e);
      if failure.Some? { return failure.value; }
      if IdOf(m) in seenMessageIds {
        var known := Lookup(acceptedMessageDigests, IdOf(m)) == Some(Sha256(m));
        return if known then AlreadyAccepted else MessageIdConflict;
      }
      var previous := Lookup(lastSequenceByAgent, e.agentId);
      if previous.Some? && e.sequence <= previous.value { return StaleSequence; }
      if previous.Some? && e.sequence != previous.value + 1 { return SequenceGap; }
      if Abs(now - e.createdAt.value) > cfg.maximumSkew { return ClockSkew; }
      if e.body.Batch? {
        if MaxSampleSkew(e.body.samples, now) > cfg.maximumSkew { return SampleClockSkew; }
        var expected := Lookup(lastBatchByAgent, e.agentId);
        if expected.Some? && e.body.previousBatchId != expected { return BatchChainMismatch; }
      }
      return Accepted;
    }

    /** The closing part of `ingest` for a message that passed every check. */
    method Accept(m: Message, now: Instant)
      modifies this
      ensures State() == Commit(old(State()), m, now)
    {
      var e := m.envelope;
      if e.body.Batch? {
        lastBatchByAgent := lastBatchByAgent[e.agentId := e.body.batchId];
        var ofNode := Ledger(acceptedSamplesByNode, e.nodeId) + EntriesOf(m);
        var ofAgent := Ledger(acceptedSamplesByAgent, e.agentId) + EntriesOf(m);
        acceptedSamplesByNode := acceptedSamplesByNode[e.nodeId := ofNode];
        acceptedSamplesByAgent := acceptedSamplesByAgent[e.agentId := ofAgent];
      }
      lastSequenceByAgent := lastSequenceByAgent[e.agentId := e.sequence];
      lastSeenByNode := lastSeenByNode[e.nodeId := now];
      lastSeenByAgent := lastSeenByAgent[e.agentId := now];
      seenMessageIds := seenMessageIds + {IdOf(m)};
      acceptedMessageDigests := acceptedMessageDigests[IdOf(m) := Sha256(m)];
    }

    /** `ingest`, with the clock reading of the skew check as a parameter. */
    method Ingest(m: Message, now: Instant) returns (ack: Ack)
      modifies this
      ensures State() == After(cfg, old(State()), m, now)
      ensures ack == Reply(cfg, old(State()), m, now)
    {
      var e := m.envelope;
      var reason := Check(m, now);
      if reason == Accepted { Accept(m, now); }
      var unidentified := reason in {UnknownAgent, NodeIdentityMismatch, InvalidSignature};
      ack := MakeAck(IdOf(m), reason, if unidentified then None else Some(e.agentId));
    }

    method NodeHealth(now: Instant) returns (result: map<NodeId, Health>)
      ensures forall n :: n in result <==> n in cfg.expectedNodes
      ensures forall n :: n in result ==> result[n] == HealthOf(Lookup(lastSeenByNode, n), now, cfg.staleAfter)
    {
      result := map[];
      for i := 0 to |cfg.expectedNodes|
        invariant forall n :: n in result <==> n in cfg.expectedNodes[..i]
        invariant forall n :: n in result ==> result[n] == HealthOf(Lookup(lastSeenByNode, n), now, cfg.staleAfter)
      {
        var n := cfg.expectedNodes[i];
        result := result[n := HealthOf(Lookup(lastSeenByNode, n), now, cfg.staleAfter)];
      }
    }

    /** What `agent_health` says of one agent. */
    function AgentEntry(a: AgentId, now: Instant): AgentHealthEntry
      reads this
      requires a in cfg.registrations
    {
      AgentHealthEntry(cfg.registrations[a].nodeId, HealthOf(Lookup(lastSeenByAgent, a), now, cfg.staleAfter))
    }

    method AgentHealth(now: Instant) returns (result: map<AgentId, AgentHealthEntry>)
      requires forall a :: a in cfg.expectedAgents ==> a in cfg.registrations
      ensures forall a :: a in result <==> a in cfg.expectedAgents
      ensures forall a :: a in result ==> result[a] == AgentEntry(a, now)
    {
      result := map[];
      for i := 0 to |cfg.expectedAgents|
        invariant forall a :: a in result <==> a in cfg.expectedAgents[..i]
        invariant forall a :: a in result ==> result[a] == AgentEntry(a, now)
      {
        var a := cfg.expectedAgents[i];
        var health := HealthOf(Lookup(lastSeenByAgent, a), now, cfg.staleAfter);
        result := result[a := AgentHealthEntry(cfg.registrations[a].nodeId, health)];
      }
    }

    /** The scan of one ledger: its samples in the window, and the batches they came in. */
    method ScanLedger(entries: seq<Entry>, start: Instant, end: Instant)
      returns (selected: seq<Entry>, batches: set<MessageId>)
      ensures selected == Selected(entries, start, end)
      ensures forall b :: b in batches <==> exists e :: e in entries && InWindow(e, start, end) && e.batchId == b
    {
      selected, batches := [], {};
      for i := 0 to |entries|
        invariant selected == Selected(entries[..i], start, end)
        invariant forall b :: b in batches <==>
          exists e :: e in entries[..i] && InWindow(e, start, end) && e.batchId == b
      {
        assert entries[..i + 1][..i] == entries[..i];
        assert entries[..i + 1] == entries[..i] + [entries[i]];
        if InWindow(entries[i], start, end) {
          selected := selected + [entries[i]];
          batches := batches + {entries[i].batchId};
        }
      }
      assert entries[..|entries|] == entries;
    }

    /** The values of one field among the selected samples. */
    method CollectReadings(selected: seq<Entry>, field: string) returns (values: seq<real>)
      ensures values == ReadingsOf(selected, field)
    {
      values := [];
      for i := 0 to |selected|
        invariant values == ReadingsOf(selected[..i], field)
      {
        assert selected[..i + 1][..i] == selected[..i];
        var readings := selected[i].sample.readings;
        if field in readings { values := values + [readings[field]]; }
      }
      assert selected[..|selected|] == selected;
    }

    /** The mean of every telemetry field over the selected samples. */
    method MeanFields(selected: seq<Entry>) returns (means: map<string, Option<real>>)
      ensures means == FieldMeansOf(selected)
    {
      means := map[];
      for i := 0 to |TELEMETRY_FIELDS|
        invariant means.Keys == set f | f in TELEMETRY_FIELDS[..i]
        invariant forall f :: f in means ==> means[f] == MeanReading(selected, f)
      {
        var field := TELEMETRY_FIELDS[i];
        var values := CollectReadings(selected, field);
        means := means[field := if values == [] then None else Some(Ordering.Total(values) / |values| as real)];
        assert TELEMETRY_FIELDS[..i + 1] == TELEMETRY_FIELDS[..i] + [field];
      }
      assert TELEMETRY_FIELDS[..|TELEMETRY_FIELDS|] == TELEMETRY_FIELDS;
    }

    /** The loop over the expected nodes. */
    method SummarizeNodes(start: Instant, end: Instant, health: map<NodeId, Health>, now: Instant)
      returns (nodes: map<NodeId, NodeSummary>, evidence: set<MessageId>)
      requires forall n :: n in cfg.expectedNodes ==>
        n in health && health[n] == HealthOf(Lookup(lastSeenByNode, n), now, cfg.staleAfter)
      ensures forall n :: n in nodes <==> n in cfg.expectedNodes
      ensures forall n :: n in nodes ==> nodes[n] == NodeSummaryOf(cfg, State(), n, start, end, now)
      ensures forall b :: b in evidence <==> Contributes(acceptedSamplesByNode, cfg.expectedNodes, b, start, end)
    {
      nodes, evidence := map[], {};
      for i := 0 to |cfg.expectedNodes|
        invariant forall n :: n in nodes <==> n in cfg.expectedNodes[..i]
        invariant forall n :: n in nodes ==> nodes[n] == NodeSummaryOf(cfg, State(), n, start, end, now)
        invariant forall b :: b in evidence <==>
          Contributes(acceptedSamplesByNode, cfg.expectedNodes[..i], b, start, end)
      {
        var n := cfg.expectedNodes[i];
        var selected, batches := ScanLedger(Ledger(acceptedSamplesByNode, n), start, end);
        var means := MeanFields(selected);
        ExtendContributions(acceptedSamplesByNode, cfg.expectedNodes, i, evidence, batches, start, end);
        evidence := evidence + batches;
        nodes := nodes[n := NodeSummary(health[n], |selected|, means)];
      }
      assert cfg.expectedNodes[..|cfg.expectedNodes|] == cfg.expectedNodes;
    }

    /** The loop over the expected agents. */
    method SummarizeAgents(start: Instant, end: Instant, health: map<AgentId, AgentHealthEntry>, now: Instant)
      returns (agents: map<AgentId, AgentSummary>, evidence: set<MessageId>)
      requires forall a :: a in cfg.expectedAgents ==>
        a in cfg.registrations && a in health && health[a] == AgentEntry(a, now)
      ensures forall a :: a in agents <==> a in cfg.expectedAgents
      ensures forall a :: a in agents ==> agents[a] == AgentSummaryOf(cfg, State(), a, start, end, now)
      ensures forall b :: b in evidence <==> Contributes(acceptedSamplesByAgent, cfg.expectedAgents, b, start, end)
    {
      agents, evidence := map[], {};
      for i := 0 to |cfg.expectedAgents|
        invariant forall a :: a in agents <==> a in cfg.expectedAgents[..i]
        invariant forall a :: a in agents ==> agents[a] == AgentSummaryOf(cfg, State(), a, start, end, now)
        invariant forall b :: b in evidence <==>
          Contributes(acceptedSamplesByAgent, cfg.expectedAgents[..i], b, start, end)
      {
        var a := cfg.expectedAgents[i];
        var selected, batches := ScanLedger(Ledger(acceptedSamplesByAgent, a), start, end);
        ExtendContributions(acceptedSamplesByAgent, cfg.expectedAgents, i, evidence, batches, start, end);
        evidence := evidence + batches;
        agents := agents[a := AgentSummary(
          cfg.registrations[a].nodeId, health[a].health, |selected|, RanksOf(selected), GpusOf(selected))];
      }
      assert cfg.expectedAgents[..|cfg.expectedAgents|] == cfg.expectedAgents;
    }

    /** `aggregate_window`; node and agent health read the clock one after the other. */
    method AggregateWindow(start: Instant, end: Instant, nodeNow: Instant, agentNow: Instant)
      returns (r: Result<Aggregate, WindowError>)
      requires ValidConfig(cfg)
      ensures r.Err? <==> end <= start
      ensures r.Ok? ==> Reports(cfg, State(), start, end, nodeNow, agentNow, r.value)
    {
      if end <= start {
        return Err(EndNotAfterStart);
      }
      var nodeHealth := NodeHealth(nodeNow);
      var agentHealth := AgentHealth(agentNow);
      var nodes, nodeEvidence := SummarizeNodes(start, end, nodeHealth, nodeNow);
      var agents, agentEvidence := SummarizeAgents(start, end, agentHealth, agentNow);
      var missingNodes := set n | n in nodes && Absent(nodes[n].health, nodes[n].sampleCount);
      var missingAgents := set a | a in agents && Absent(agents[a].health, agents[a].sampleCount);
      r := Ok(Aggregate(nodes, agents, missingNodes, missingAgents,
                        missingNodes == {} && missingAgents == {}, nodeEvidence + agentEvidence));
    }
  }

  lemma ContributesStep<K(!new)>(
      ledgers: map<K, seq<Entry>>, keys: seq<K>, i: nat, b: MessageId, start: Instant, end: Instant)
    requires i < |keys|
    ensures Contributes(ledgers, keys[..i + 1], b, start, end)
            <==> Contributes(ledgers, keys[..i], b, start, end)
                 || exists e :: e in Ledger(ledgers, keys[i]) && InWindow(e, start, end) && e.batchId == b
  {
    assert keys[..i + 1] == keys[..i] + [keys[i]];
  }

  lemma ExtendContributions<K(!new)>(
      ledgers: map<K, seq<Entry>>, keys: seq<K>, i: nat, evidence: set<MessageId>, batches: set<MessageId>,
      start: Instant, end: Instant)
    requires i < |keys|
    requires forall b :: b in evidence <==> Contributes(ledgers, keys[..i], b, start, end)
    requires forall b :: b in batches <==>
      exists e :: e in Ledger(ledgers, keys[i]) && InWindow(e, start, end) && e.batchId == b
    ensures forall b :: b in evidence + batches <==> Contributes(ledgers, keys[..i + 1], b, start, end)
  {
    forall b
      ensures b in evidence + batches <==> Contributes(ledgers, keys[..i + 1], b, start, end)
    {
      ContributesStep(ledgers, keys, i, b, start, end);
    }
  }

  // ----- the detector

  datatype Decision = Decision(score: Option<real>, abstained: bool, listedNodes: set<NodeId>)

  datatype DecisionError = ScoreOutOfRange

  /** `DetectorService`: an injected scorer, a threshold and an abstention margin. */
  datatype DetectorService = DetectorService(scorer: Aggregate -> real, threshold: real, margin: real) {

    function Decide(a: Aggregate): Result<Decision, DecisionError> {
      if !a.complete then Ok(Decision(None, true, a.missingNodes))
      else
        var score := scorer(a);
        if !(0.0 <= score <= 1.0) then Err(ScoreOutOfRange)
        else
          var distance := if score < threshold then threshold - score else score - threshold;
          Ok(Decision(Some(score), distance <= margin, {}))
    }
  }
}
