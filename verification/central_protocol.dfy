/** The central-monitoring protocol: messages, registrations, the service's state, and the
    decision `ingest` takes on one message (central/schemas.py, security.py, server.py).

    HMAC-SHA256 and SHA-256 are idealised: a signature is the pair of key and signed content,
    a digest is the digested content, so both are collision free and a signature can only be
    made by naming its key.  Timestamps are integers on the UTC axis. */
module CentralProtocol {
  import opened Common

  type Instant = int
  type AgentId = string
  type NodeId = string
  type MessageId = string
  type SessionId = string
  type Secret = string

  const PROTOCOL_VERSION := "1.0"

  // ----- messages

  /** What `validate_telemetry_samples` finds in one sample. */
  datatype SampleCheck = Clean | ProhibitedKey | UnknownKey | Malformed

  /** `readings` holds the supported fields that have a value. */
  datatype Sample = Sample(
    sampleId: string, observedAt: Instant, check: SampleCheck, rank: int, gpuUuid: string, readings: map<string, real>)

  datatype Body =
    | Batch(batchId: MessageId, previousBatchId: Option<MessageId>, startNs: int, endNs: int, samples: seq<Sample>)
    | Heartbeat(heartbeatId: MessageId, lastBatchId: Option<MessageId>)
    | OtherType(claimedId: MessageId)

  /** The unsigned payload.  `fieldsExact` says that the constructor accepts the payload's keys,
      `createdAt` is None when the text is not an ISO timestamp with a timezone, and
      `encodedBytes` is the length of the canonical encoding. */
  datatype Envelope = Envelope(
    protocolVersion: string, agentId: AgentId, nodeId: NodeId, session: SessionId, sequence: int,
    createdAt: Option<Instant>, fieldsExact: bool, encodedBytes: nat, body: Body)

  datatype Signature = Hmac(key: Secret, content: Envelope)

  datatype Message = Message(envelope: Envelope, signature: Option<Signature>)

  datatype Digest = Sha256(content: Message)

  function Sign(e: Envelope, key: Secret): Message {
    Message(e, Some(Hmac(key, e)))
  }

  predicate Verifies(m: Message, key: Secret) {
    m.signature == Some(Hmac(key, m.envelope))
  }

  /** `payload.get("batch_id") or payload.get("heartbeat_id") or default`. */
  function IdOr(m: Message, default: MessageId): MessageId {
    var id := match m.envelope.body
      case Batch(b, _, _, _, _) => b
      case Heartbeat(h, _) => h
      case OtherType(c) => c;
    if id == "" then default else id
  }

  function IdOf(m: Message): MessageId {
    IdOr(m, "unknown")
  }

  predicate IsBatch(m: Message) {
    m.envelope.body.Batch?
  }

  function BatchIdOf(m: Message): MessageId {
    if IsBatch(m) then m.envelope.body.batchId else ""
  }

  /** The predecessor a batch names. */
  function ParentOf(m: Message): Option<MessageId> {
    if IsBatch(m) then m.envelope.body.previousBatchId else None
  }

  // ----- the service

  datatype Registration = Registration(nodeId: NodeId, secret: Secret)

  datatype Config = Config(
    registrations: map<AgentId, Registration>, session: SessionId,
    expectedNodes: seq<NodeId>, expectedAgents: seq<AgentId>,
    maximumPayloadBytes: nat, maximumSkew: int, staleAfter: int)

  /** The constructor's checks. `expectedAgents` is the sorted list of the registration keys. */
  ghost predicate ValidConfig(cfg: Config) {
    && (forall a :: a in cfg.registrations ==>
          a != "" && cfg.registrations[a].nodeId != "" && cfg.registrations[a].secret != "")
    && (forall n :: n in cfg.expectedNodes <==> exists a :: a in cfg.registrations && cfg.registrations[a].nodeId == n)
    && (forall a :: a in cfg.expectedAgents <==> a in cfg.registrations)
    && Distinct(cfg.expectedAgents)
    && cfg.session != "" && cfg.maximumPayloadBytes >= 1 && cfg.maximumSkew >= 0 && cfg.staleAfter > 0
  }

  datatype Entry = Entry(batchId: MessageId, sample: Sample)

  /** The mutable fields of `CentralIngestionService`. */
  datatype ServerState = ServerState(
    lastSequence: map<AgentId, int>, lastBatch: map<AgentId, MessageId>,
    nodeSeen: map<NodeId, Instant>, agentSeen: map<AgentId, Instant>,
    seenIds: set<MessageId>, digests: map<MessageId, Digest>,
    nodeSamples: map<NodeId, seq<Entry>>, agentSamples: map<AgentId, seq<Entry>>)

  const EMPTY_STATE := ServerState(map[], map[], map[], map[], {}, map[], map[], map[])

  datatype Reason =
    | PayloadTooLarge | UnsupportedProtocolVersion | UnknownAgent | NodeIdentityMismatch
    | InvalidSignature | SessionMismatch | UnknownMessageType | InvalidMessage
    | PrivacyViolation | InvalidSample | MessageIdConflict | StaleSequence | SequenceGap
    | ClockSkew | SampleClockSkew | BatchChainMismatch | AlreadyAccepted | Accepted

  datatype Ack = Ack(messageId: MessageId, accepted: bool, reason: Reason, lastAcceptedSequence: Option<int>)

  /** A defaultdict(list) read. */
  function Ledger<K>(m: map<K, seq<Entry>>, k: K): seq<Entry> {
    if k in m then m[k] else []
  }

  function EntriesOf(m: Message): seq<Entry> {
    if IsBatch(m) then
      seq(|m.envelope.body.samples|, i requires 0 <= i < |m.envelope.body.samples| =>
        Entry(m.envelope.body.batchId, m.envelope.body.samples[i]))
    else []
  }

  function Abs(x: int): nat {
    if x < 0 then -x else x
  }

  // ----- the decision

  /** `validate_telemetry_samples`: prohibited keys are looked for in every sample first. */
  function SampleFailure(samples: seq<Sample>): Option<Reason> {
    if exists i :: 0 <= i < |samples| && samples[i].check == ProhibitedKey then Some(PrivacyViolation)
    else FirstSampleFailure(samples)
  }

  function FirstSampleFailure(samples: seq<Sample>): Option<Reason> {
    if samples == [] then None
    else match samples[0].check
      case Malformed => Some(InvalidSample)
      case Clean => FirstSampleFailure(samples[1..])
      case _ => Some(PrivacyViolation)
  }

  lemma {:induction false} FirstFailureExactly(samples: seq<Sample>)
    ensures FirstSampleFailure(samples).None? <==> forall i :: 0 <= i < |samples| ==> samples[i].check == Clean
  {
    if samples != [] {
      FirstFailureExactly(samples[1..]);
      assert forall i :: 1 <= i < |samples| ==> samples[1..][i - 1] == samples[i];
    }
  }

  lemma SampleFailureExactly(samples: seq<Sample>)
    ensures SampleFailure(samples).None? <==> forall i :: 0 <= i < |samples| ==> samples[i].check == Clean
  {
    FirstFailureExactly(samples);
  }

  /** `from_dict`, `validate` and `validate_telemetry_samples`. */
  function ParseFailure(e: Envelope): Option<Reason> {
    var badEnvelope := !e.fieldsExact || e.agentId == "" || e.nodeId == "" || e.session == ""
                       || e.sequence < 0 || e.createdAt.None?;
    match e.body
    case Batch(id, _, startNs, endNs, samples) =>
      if badEnvelope || id == "" || startNs < 0 || endNs < startNs || samples == [] then Some(InvalidMessage)
      else SampleFailure(samples)
    case Heartbeat(id, _) =>
      if badEnvelope || id == "" then Some(InvalidMessage) else None
    case OtherType(_) => Some(UnknownMessageType)
  }

  /** Every check that looks at the message and the configuration only, in the order of `ingest`. */
  function Screen(cfg: Config, m: Message): Option<Reason> {
    var e := m.envelope;
    if e.encodedBytes > cfg.maximumPayloadBytes then Some(PayloadTooLarge)
    else if e.protocolVersion != PROTOCOL_VERSION then Some(UnsupportedProtocolVersion)
    else if e.agentId !in cfg.registrations then Some(UnknownAgent)
    else if e.nodeId != cfg.registrations[e.agentId].nodeId then Some(NodeIdentityMismatch)
    else if !Verifies(m, cfg.registrations[e.agentId].secret) then Some(InvalidSignature)
    else if e.session != cfg.session then Some(SessionMismatch)
    else ParseFailure(e)
  }

  function MaxSampleSkew(samples: seq<Sample>, now: Instant): nat {
    if samples == [] then 0
    else
      var rest := MaxSampleSkew(samples[1..], now);
      var here := Abs(now - samples[0].observedAt);
      if here > rest then here else rest
  }

  /** The whole decision on one message. */
  function Verdict(cfg: Config, s: ServerState, m: Message, now: Instant): Reason {
    if Screen(cfg, m).Some? then Screen(cfg, m).value
    else
      var e := m.envelope;
      if IdOf(m) in s.seenIds then
        if Lookup(s.digests, IdOf(m)) == Some(Sha256(m)) then AlreadyAccepted else MessageIdConflict
      else
        var previous := Lookup(s.lastSequence, e.agentId);
        if previous.Some? && e.sequence <= previous.value then StaleSequence
        else if previous.Some? && e.sequence != previous.value + 1 then SequenceGap
        else if Abs(now - e.createdAt.value) > cfg.maximumSkew then ClockSkew
        else if IsBatch(m) && MaxSampleSkew(e.body.samples, now) > cfg.maximumSkew then SampleClockSkew
        else if IsBatch(m) && e.agentId in s.lastBatch
                && e.body.previousBatchId != Some(s.lastBatch[e.agentId]) then BatchChainMismatch
        else Accepted
  }

  /** The updates made for an accepted message. */
  function Commit(s: ServerState, m: Message, now: Instant): ServerState {
    var e := m.envelope;
    var stored := if IsBatch(m) then
        s.(lastBatch := s.lastBatch[e.agentId := e.body.batchId],
           nodeSamples := s.nodeSamples[e.nodeId := Ledger(s.nodeSamples, e.nodeId) + EntriesOf(m)],
           agentSamples := s.agentSamples[e.agentId := Ledger(s.agentSamples, e.agentId) + EntriesOf(m)])
      else s;
    stored.(lastSequence := s.lastSequence[e.agentId := e.sequence],
            nodeSeen := s.nodeSeen[e.nodeId := now],
            agentSeen := s.agentSeen[e.agentId := now],
            seenIds := s.seenIds + {IdOf(m)},
            digests := s.digests[IdOf(m) := Sha256(m)])
  }

  function After(cfg: Config, s: ServerState, m: Message, now: Instant): ServerState {
    if Verdict(cfg, s, m, now) == Accepted then Commit(s, m, now) else s
  }

  /** The acknowledgment.  Three refusals are sent without an agent identity and so carry no
      last accepted sequence. */
  function Reply(cfg: Config, s: ServerState, m: Message, now: Instant): Ack {
    var reason := Verdict(cfg, s, m, now);
    Ack(IdOf(m), reason in {Accepted, AlreadyAccepted}, reason,
        if reason in {UnknownAgent, NodeIdentityMismatch, InvalidSignature} then None
        else Lookup(After(cfg, s, m, now).lastSequence, m.envelope.agentId))
  }
}
