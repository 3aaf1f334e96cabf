/** The node agent with its retry queue (central/agent.py) and the create-only file transport it
    sends through (central/transport.py). */
module NodeAgents {
  import opened Common
  import opened CentralProtocol
  import opened CentralServer

  datatype Identity = Identity(agentId: AgentId, nodeId: NodeId, session: SessionId, secret: Secret)

  datatype AgentState = AgentState(nextSequence: nat, lastBatchId: Option<MessageId>, pending: seq<Message>)

  const NEW_AGENT := AgentState(0, None, [])

  /** What one call of `collect_once` reads from its backend, clocks and UUID source. */
  datatype Reading = Reading(batchId: MessageId, samples: seq<Sample>, startedNs: int, endedNs: int, createdAt: Instant,
    encodedBytes: nat)

  datatype CollectError = InvalidTelemetry

  predicate Collectable(me: Identity, r: Reading) {
    && SampleFailure(r.samples).None? && r.samples != [] && r.startedNs >= 0 && r.batchId != ""
    && me.agentId != "" && me.nodeId != "" && me.session != ""
  }

  /** A reading with at least one sample, all of them clean, an id and a start. */
  predicate CompleteReading(r: Reading) {
    && r.samples != [] && (forall i :: 0 <= i < |r.samples| ==> r.samples[i].check == Clean)
    && r.batchId != "" && r.startedNs >= 0
  }

  predicate Named(me: Identity) {
    me.agentId != "" && me.nodeId != "" && me.session != ""
  }

  /** The batch carries all of the reading: its samples, id, times and span, under the agent's name and
      signature. */
  predicate Carries(me: Identity, m: Message, r: Reading) {
    var e := m.envelope;
    && e.agentId == me.agentId && e.nodeId == me.nodeId && e.session == me.session
    && e.protocolVersion == "1.0" && e.fieldsExact && e.encodedBytes == r.encodedBytes
    && e.createdAt == Some(r.createdAt)
    && m.signature == Some(Hmac(me.secret, e))
    && e.body.Batch? && e.body.batchId == r.batchId && e.body.samples == r.samples
    && e.body.startNs == r.startedNs
    && (r.startedNs <= r.endedNs ==> e.body.endNs == r.endedNs)
    && (r.endedNs < r.startedNs ==> e.body.endNs == r.startedNs)
  }

  lemma CollectableExactly(me: Identity, r: Reading)
    ensures Collectable(me, r) <==> Named(me) && CompleteReading(r)
  {
    SampleFailureExactly(r.samples);
  }

  lemma NewBatchCarries(me: Identity, st: AgentState, r: Reading)
    ensures Carries(me, NewBatch(me, st, r), r)
  {
  }

  /** A heartbeat carries its own id and time, the agent's next number and the last delivered batch. */
  lemma HeartbeatCarries(me: Identity, st: AgentState, id: MessageId, createdAt: Instant, encodedBytes: nat)
    ensures var m := NewHeartbeat(me, st, id, createdAt, encodedBytes);
      var e := m.envelope;
      && e.body == Heartbeat(id, st.lastBatchId) && e.sequence == st.nextSequence && e.createdAt == Some(createdAt)
      && e.agentId == me.agentId && e.nodeId == me.nodeId && e.session == me.session
      && m.signature == Some(Hmac(me.secret, e))
  {
  }

  function EnvelopeOf(me: Identity, sequence: int, createdAt: Instant, encodedBytes: nat, body: Body): Envelope {
    Envelope(PROTOCOL_VERSION, me.agentId, me.nodeId, me.session, sequence, Some(createdAt), true, encodedBytes, body)
  }

  function NewBatch(me: Identity, st: AgentState, r: Reading): Message {
    var parent := if st.pending != [] then Some(BatchIdOf(st.pending[|st.pending| - 1])) else st.lastBatchId;
    var endNs := if r.endedNs < r.startedNs then r.startedNs else r.endedNs;
    Sign(EnvelopeOf(me, st.nextSequence, r.createdAt, r.encodedBytes,
      Batch(r.batchId, parent, r.startedNs, endNs, r.samples)),
         me.secret)
  }

  function NewHeartbeat(me: Identity, st: AgentState, id: MessageId, createdAt: Instant, encodedBytes: nat): Message {
    Sign(EnvelopeOf(me, st.nextSequence, createdAt, encodedBytes, Heartbeat(id, st.lastBatchId)), me.secret)
  }

  function Enqueue(st: AgentState, m: Message): AgentState {
    st.(pending := st.pending + [m], nextSequence := st.nextSequence + 1)
  }

  /** Leave the head of the queue behind once it was acknowledged as accepted. */
  function Pop(st: AgentState): AgentState
    requires st.pending != []
  {
    st.(pending := st.pending[1..], lastBatchId := Some(BatchIdOf(st.pending[0])))
  }

  // ----- one attempt to deliver a message

  /** The request and acknowledgment files of the offline transport. */
  datatype Link = Link(requests: map<MessageId, Message>, acks: map<MessageId, Ack>)

  datatype Fault = NoFault | RequestFails | AckFails

  /** What the environment supplies for one attempt: the service's clock and possibly a fault. */
  datatype Conditions = Conditions(now: Instant, fault: Fault)

  datatype SendError = UnsafeId | RequestConflict | IoError

  datatype Sent = Sent(link: Link, server: ServerState, outcome: Result<Ack, SendError>)

  /** `[A-Za-z0-9_-]+` */
  predicate SafeId(id: MessageId) {
    id != "" && forall i :: 0 <= i < |id| ==>
      var c := id[i]; 'A' <= c <= 'Z' || 'a' <= c <= 'z' || '0' <= c <= '9' || c == '_' || c == '-'
  }

  /** `OfflineFileTransport.send`: save the request once, ask the service, and answer with the first
      acknowledgment that was ever saved for this identifier. */
  function SendOffline(cfg: Config, link: Link, s: ServerState, m: Message, c: Conditions): Sent {
    var id := IdOr(m, "");
    if !SafeId(id) then Sent(link, s, Err(UnsafeId))
    else if c.fault == RequestFails then Sent(link, s, Err(IoError))
    else if id in link.requests && link.requests[id] != m then Sent(link, s, Err(RequestConflict))
    else
      var saved := link.(requests := link.requests[id := m]);
      var s' := After(cfg, s, m, c.now);
      if c.fault == AckFails then Sent(saved, s', Err(IoError))
      else if id in link.acks then Sent(saved, s', Ok(link.acks[id]))
      else
        var ack := Reply(cfg, s, m, c.now);
        Sent(saved.(acks := link.acks[id := ack]), s', Ok(ack))
  }

  /** Saved files never change; an answered message is on file with its answer, and without an answer no
      acknowledgment is saved. */
  lemma FilesAreWrittenOnce(cfg: Config, link: Link, s: ServerState, m: Message, c: Conditions)
    ensures var sent, id := SendOffline(cfg, link, s, m, c), IdOr(m, "");
      && (forall x :: x in link.requests ==> x in sent.link.requests && sent.link.requests[x] == link.requests[x])
      && (forall x :: x in link.acks ==> x in sent.link.acks && sent.link.acks[x] == link.acks[x])
      && (sent.outcome.Ok? ==>
            && id in sent.link.requests && sent.link.requests[id] == m
            && id in sent.link.acks && sent.link.acks[id] == sent.outcome.value)
      && (sent.outcome.Err? ==> sent.link.acks == link.acks)
  {
  }

  /** An attempt fails exactly for an unsafe id, a fault, or a different message on file under the id; the
      service sees the message exactly if the attempt goes through or only the acknowledgment is lost. */
  lemma AttemptFailsExactly(cfg: Config, link: Link, s: ServerState, m: Message, c: Conditions)
    ensures var sent, id := SendOffline(cfg, link, s, m, c), IdOr(m, "");
      var conflict := id in link.requests && link.requests[id] != m;
      && (sent.outcome.Ok? <==> SafeId(id) && c.fault == NoFault && !conflict)
      && (sent.outcome == Err(RequestConflict) <==> SafeId(id) && c.fault != RequestFails && conflict)
      && (sent.outcome == Err(UnsafeId) <==> !SafeId(id))
      && sent.server == (if sent.outcome.Ok? || (SafeId(id) && c.fault == AckFails && !conflict)
                         then After(cfg, s, m, c.now) else s)
  {
  }

  /** A transport that passes on the service's own acknowledgment, as `HttpTransport` does. */
  function SendDirect(cfg: Config, link: Link, s: ServerState, m: Message, c: Conditions): Sent {
    if c.fault == RequestFails then Sent(link, s, Err(IoError))
    else Sent(link, After(cfg, s, m, c.now), if c.fault == AckFails then Err(IoError) else Ok(Reply(cfg, s, m, c.now)))
  }

  // ----- flush

  datatype Flushed = Flushed(agent: AgentState, link: Link, server: ServerState, acks: seq<Ack>,
    failure: Option<SendError>)

  /** `flush` over the offline transport: the k-th attempt meets the conditions `env(k)`. */
  function FlushFrom(cfg: Config, st: AgentState, link: Link, s: ServerState, env: nat -> Conditions, k: nat): Flushed
    decreases |st.pending|
  {
    if st.pending == [] then Flushed(st, link, s, [], None)
    else
      var sent := SendOffline(cfg, link, s, st.pending[0], env(k));
      match sent.outcome
      case Err(e) => Flushed(st, sent.link, sent.server, [], Some(e))
      case Ok(ack) =>
        if !ack.accepted then Flushed(st, sent.link, sent.server, [ack], None)
        else
          var rest := FlushFrom(cfg, Pop(st), sent.link, sent.server, env, k + 1);
          rest.(acks := [ack] + rest.acks)
  }

  class OfflineFileTransport {
    const service: CentralIngestionService
    var requests: map<MessageId, Message>
    var acknowledgments: map<MessageId, Ack>

    constructor (service: CentralIngestionService)
      ensures this.service == service && Files() == Link(map[], map[])
    {
      this.service := service;
      requests, acknowledgments := map[], map[];
    }

    function Files(): Link
      reads this
    {
      Link(requests, acknowledgments)
    }

    method Send(m: Message, c: Conditions) returns (outcome: Result<Ack, SendError>)
      modifies this, service
      ensures Sent(Files(), service.State(), outcome)
              == SendOffline(service.cfg, old(Files()), old(service.State()), m, c)
    {
      var id := IdOr(m, "");
      if !SafeId(id) { return Err(UnsafeId); }
      if c.fault == RequestFails { return Err(IoError); }
      if id in requests && requests[id] != m { return Err(RequestConflict); }
      if id !in requests { requests := requests[id := m]; }
      var ack := service.Ingest(m, c.now);
      if c.fault == AckFails { return Err(IoError); }
      if id in acknowledgments { return Ok(acknowledgments[id]); }
      acknowledgments := acknowledgments[id := ack];
      return Ok(ack);
    }
  }

  class NodeAgent {
    const me: Identity
    const transport: OfflineFileTransport
    var nextSequence: nat
    var lastBatchId: Option<MessageId>
    var pending: seq<Message>

    function State(): AgentState
      reads this
    {
      AgentState(nextSequence, lastBatchId, pending)
    }

    constructor (me: Identity, transport: OfflineFileTransport)
      requires me.agentId != "" && me.nodeId != "" && me.session != "" && me.secret != ""
      ensures this.me == me && this.transport == transport && State() == NEW_AGENT
    {
      this.me, this.transport := me, transport;
      nextSequence, lastBatchId, pending := 0, None, [];
    }

    method CollectOnce(r: Reading) returns (outcome: Result<MessageId, CollectError>)
      modifies this
      ensures outcome == if Collectable(me, r) then Ok(r.batchId) else Err(InvalidTelemetry)
      ensures State() == if Collectable(me, r) then Enqueue(old(State()), NewBatch(me, old(State()), r))
        else old(State())
      ensures outcome.Ok? <==> Named(me) && CompleteReading(r)
      ensures outcome.Ok? ==> Carries(me, pending[|pending| - 1], r)
    {
      CollectableExactly(me, r);
      NewBatchCarries(me, State(), r);
      if !Collectable(me, r) { return Err(InvalidTelemetry); }
      var parent := lastBatchId;
      if pending != [] { parent := Some(BatchIdOf(pending[|pending| - 1])); }
      var endNs := if r.endedNs < r.startedNs then r.startedNs else r.endedNs;
      var batch := EnvelopeOf(me, nextSequence, r.createdAt, r.encodedBytes,
        Batch(r.batchId, parent, r.startedNs, endNs, r.samples));
      pending := pending + [Sign(batch, me.secret)];
      nextSequence := nextSequence + 1;
      return Ok(r.batchId);
    }

    /** Sends from the head of the queue until it is empty, a batch is refused or the transport fails. */
    method Flush(env: nat -> Conditions) returns (acks: seq<Ack>, failure: Option<SendError>)
      modifies this, transport, transport.service
      ensures Flushed(State(), transport.Files(), transport.service.State(), acks, failure)
              == FlushFrom(transport.service.cfg, old(State()), old(transport.Files()), old(transport.service.State()),
                env, 0)
    {
      acks, failure := [], None;
      var k: nat := 0;
      ghost var cfg := transport.service.cfg;
      ghost var whole := FlushFrom(cfg, State(), transport.Files(), transport.service.State(), env, 0);
      while pending != []
        invariant LeftToFlush(cfg, State(), transport.Files(), transport.service.State(), env, k, acks, whole)
        decreases |pending|
      {
        OneAttempt(cfg, State(), transport.Files(), transport.service.State(), env, k, acks, whole);
        var message := pending[0];
        var outcome := transport.Send(message, env(k));
        if outcome.Err? {
          failure := Some(outcome.error);
          return;
        }
        acks := acks + [outcome.value];
        if !outcome.value.accepted {
          return;
        }
        pending := pending[1..];
        lastBatchId := Some(BatchIdOf(message));
        k := k + 1;
      }
      NothingLeftToFlush(cfg, State(), transport.Files(), transport.service.State(), env, k, acks, whole);
    }

    /** A heartbeat takes a sequence number whether or not it arrives. */
    method Beat(id: MessageId, createdAt: Instant, encodedBytes: nat, c: Conditions)
      returns (outcome: Result<Ack, SendError>)
      modifies this, transport, transport.service
      ensures State() == old(State()).(nextSequence := old(nextSequence) + 1)
      ensures Sent(transport.Files(), transport.service.State(), outcome)
              == SendOffline(transport.service.cfg, old(transport.Files()), old(transport.service.State()),
                             NewHeartbeat(me, old(State()), id, createdAt, encodedBytes), c)
    {
      var beat := EnvelopeOf(me, nextSequence, createdAt, encodedBytes, Heartbeat(id, lastBatchId));
      nextSequence := nextSequence + 1;
      outcome := transport.Send(Sign(beat, me.secret), c);
    }
  }

  function Prepend(acks: seq<Ack>, f: Flushed): Flushed {
    f.(acks := acks + f.acks)
  }

  /** After the acknowledgments so far, what is left comes to the whole flush. */
  ghost predicate LeftToFlush(cfg: Config, st: AgentState, link: Link, s: ServerState, env: nat -> Conditions, k: nat,
      acks: seq<Ack>, whole: Flushed)
  {
    Prepend(acks, FlushFrom(cfg, st, link, s, env, k)) == whole
  }

  lemma NothingLeftToFlush(cfg: Config, st: AgentState, link: Link, s: ServerState, env: nat -> Conditions, k: nat,
      acks: seq<Ack>, whole: Flushed)
    requires st.pending == [] && LeftToFlush(cfg, st, link, s, env, k, acks, whole)
    ensures whole == Flushed(st, link, s, acks, None)
  {
    assert acks + [] == acks;
  }

  /** What one attempt leaves of the flush. */
  lemma OneAttempt(cfg: Config, st: AgentState, link: Link, s: ServerState, env: nat -> Conditions, k: nat,
      acks: seq<Ack>, whole: Flushed)
    requires st.pending != [] && LeftToFlush(cfg, st, link, s, env, k, acks, whole)
    ensures var sent := SendOffline(cfg, link, s, st.pending[0], env(k));
      match sent.outcome
      case Err(e) => whole == Flushed(st, sent.link, sent.server, acks, Some(e))
      case Ok(ack) =>
        if !ack.accepted then whole == Flushed(st, sent.link, sent.server, acks + [ack], None)
        else LeftToFlush(cfg, Pop(st), sent.link, sent.server, env, k + 1, acks + [ack], whole)
  {
    var sent := SendOffline(cfg, link, s, st.pending[0], env(k));
    if sent.outcome.Err? {
      assert acks + [] == acks;
    } else if sent.outcome.value.accepted {
      var rest := FlushFrom(cfg, Pop(st), sent.link, sent.server, env, k + 1);
      assert acks + ([sent.outcome.value] + rest.acks) == acks + [sent.outcome.value] + rest.acks;
    }
  }
}
