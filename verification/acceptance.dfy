/** What the service accepts and stores, in terms of the message's own fields. */
module Acceptance {
  import opened Common
  import opened CentralProtocol
  import opened ServerRuns
  import opened Ledgers

  // The conditions, one by one

  predicate RightSize(cfg: Config, m: Message) {
    m.envelope.encodedBytes <= cfg.maximumPayloadBytes
  }

  predicate FromKnownAgent(cfg: Config, m: Message) {
    m.envelope.agentId in cfg.registrations
  }

  predicate FromItsNode(cfg: Config, m: Message) {
    FromKnownAgent(cfg, m) && m.envelope.nodeId == cfg.registrations[m.envelope.agentId].nodeId
  }

  /** Node and signature are those registered for the agent. */
  predicate Genuine(cfg: Config, m: Message) {
    FromItsNode(cfg, m)
    && m.signature == Some(Hmac(cfg.registrations[m.envelope.agentId].secret, m.envelope))
  }

  predicate WellFormedEnvelope(e: Envelope) {
    && e.fieldsExact && e.agentId != "" && e.nodeId != "" && e.session != ""
    && e.sequence >= 0 && e.createdAt.Some?
  }

  /** A batch with an id, an ordered span and at least one sample, or a heartbeat with an id. */
  predicate WellFormedBody(b: Body) {
    match b
    case Batch(id, _, startNs, endNs, samples) => id != "" && 0 <= startNs <= endNs && samples != []
    case Heartbeat(id, _) => id != ""
    case OtherType(_) => false
  }

  predicate CleanSamples(b: Body) {
    b.Batch? ==> forall i :: 0 <= i < |b.samples| ==> b.samples[i].check == Clean
  }

  /** Everything that does not depend on the service's state or clock. */
  predicate Presentable(cfg: Config, m: Message) {
    && RightSize(cfg, m)
    && m.envelope.protocolVersion == "1.0"
    && Genuine(cfg, m)
    && m.envelope.session == cfg.session
    && WellFormedEnvelope(m.envelope) && WellFormedBody(m.envelope.body) && CleanSamples(m.envelope.body)
  }

  function BodyId(b: Body): MessageId {
    match b
    case Batch(id, _, _, _, _) => id
    case Heartbeat(id, _) => id
    case OtherType(id) => id
  }

  predicate FreeId(s: ServerState, m: Message) {
    BodyId(m.envelope.body) !in s.seenIds
  }

  predicate NextInTurn(s: ServerState, e: Envelope) {
    e.agentId in s.lastSequence ==> e.sequence == s.lastSequence[e.agentId] + 1
  }

  predicate Within(x: int, y: int, limit: int) {
    -limit <= x - y <= limit
  }

  predicate RecentMessage(cfg: Config, e: Envelope, now: Instant) {
    e.createdAt.Some? && Within(now, e.createdAt.value, cfg.maximumSkew)
  }

  predicate RecentSamples(cfg: Config, b: Body, now: Instant) {
    b.Batch? ==> forall i :: 0 <= i < |b.samples| ==> Within(now, b.samples[i].observedAt, cfg.maximumSkew)
  }

  predicate InChain(s: ServerState, e: Envelope) {
    e.body.Batch? && e.agentId in s.lastBatch ==> e.body.previousBatchId == Some(s.lastBatch[e.agentId])
  }

  predicate Admissible(cfg: Config, s: ServerState, m: Message, now: Instant) {
    && Presentable(cfg, m)
    && FreeId(s, m)
    && NextInTurn(s, m.envelope)
    && RecentMessage(cfg, m.envelope, now)
    && RecentSamples(cfg, m.envelope.body, now)
    && InChain(s, m.envelope)
  }

  // The checks of the service come to the same

  lemma ParseFailureExactly(e: Envelope)
    ensures ParseFailure(e).None? <==> WellFormedEnvelope(e) && WellFormedBody(e.body) && CleanSamples(e.body)
  {
    if e.body.Batch? { SampleFailureExactly(e.body.samples); }
  }

  lemma ScreenExactly(cfg: Config, m: Message)
    ensures Screen(cfg, m).None? <==> Presentable(cfg, m)
  {
    ParseFailureExactly(m.envelope);
  }

  lemma {:induction false} SampleSkewExactly(samples: seq<Sample>, now: Instant, limit: int)
    requires limit >= 0
    ensures MaxSampleSkew(samples, now) <= limit
            <==> forall i :: 0 <= i < |samples| ==> Within(now, samples[i].observedAt, limit)
  {
    if samples != [] {
      SampleSkewExactly(samples[1..], now, limit);
      assert forall i :: 1 <= i < |samples| ==> samples[1..][i - 1] == samples[i];
      assert Abs(now - samples[0].observedAt) <= limit <==> Within(now, samples[0].observedAt, limit);
    }
  }

  lemma NegativeLimit(cfg: Config, s: ServerState, m: Message, now: Instant)
    requires cfg.maximumSkew < 0
    ensures Verdict(cfg, s, m, now) != Accepted && !Admissible(cfg, s, m, now)
  {
    ScreenNeverAccepts(cfg, m);
  }

  lemma PresentableId(cfg: Config, m: Message)
    requires Presentable(cfg, m)
    ensures IdOf(m) == BodyId(m.envelope.body)
  {
  }

  lemma PresentedVerdict(cfg: Config, s: ServerState, m: Message, now: Instant)
    requires Presentable(cfg, m) && Screen(cfg, m).None? && cfg.maximumSkew >= 0
    ensures Verdict(cfg, s, m, now) == Accepted <==>
      FreeId(s, m) && NextInTurn(s, m.envelope) && RecentMessage(cfg, m.envelope, now)
      && RecentSamples(cfg, m.envelope.body, now) && InChain(s, m.envelope)
  {
    PresentableId(cfg, m);
    if m.envelope.body.Batch? { SampleSkewExactly(m.envelope.body.samples, now, cfg.maximumSkew); }
  }

  lemma VerdictExactly(cfg: Config, s: ServerState, m: Message, now: Instant)
    ensures Verdict(cfg, s, m, now) == Accepted <==> Admissible(cfg, s, m, now)
  {
    if cfg.maximumSkew < 0 {
      NegativeLimit(cfg, s, m, now);
    } else {
      ScreenExactly(cfg, m);
      if Presentable(cfg, m) { PresentedVerdict(cfg, s, m, now); } else { ScreenNeverAccepts(cfg, m); }
    }
  }

  /** A message of any kind, in any state and at any clock reading, is newly accepted exactly if it is
      admissible; any other message changes nothing. */
  lemma AcceptedExactly(cfg: Config, s: ServerState, m: Message, now: Instant)
    ensures Reply(cfg, s, m, now).reason == Accepted <==> Admissible(cfg, s, m, now)
    ensures !Admissible(cfg, s, m, now) ==> After(cfg, s, m, now) == s
    ensures Admissible(cfg, s, m, now) ==> BodyId(m.envelope.body) in After(cfg, s, m, now).seenIds
  {
    VerdictExactly(cfg, s, m, now);
    if Presentable(cfg, m) { PresentableId(cfg, m); }
  }

  // Which refusal it is

  /** The refusals that come before the message is parsed. */
  lemma EarlyRefusals(cfg: Config, s: ServerState, m: Message, now: Instant)
    ensures var r, e := Reply(cfg, s, m, now).reason, m.envelope;
      && (r == PayloadTooLarge <==> !RightSize(cfg, m))
      && (r == UnsupportedProtocolVersion <==> RightSize(cfg, m) && e.protocolVersion != "1.0")
      && (r == UnknownAgent <==> RightSize(cfg, m) && e.protocolVersion == "1.0" && e.agentId !in cfg.registrations)
      && (r == NodeIdentityMismatch <==>
        RightSize(cfg, m) && e.protocolVersion == "1.0" && FromKnownAgent(cfg, m) && !FromItsNode(cfg, m))
      && (r == InvalidSignature <==>
        RightSize(cfg, m) && e.protocolVersion == "1.0" && FromItsNode(cfg, m) && !Genuine(cfg, m))
      && (r == SessionMismatch <==>
        RightSize(cfg, m) && e.protocolVersion == "1.0" && Genuine(cfg, m) && e.session != cfg.session)
  {
    if m.envelope.body.Batch? { SampleRefusals(m.envelope.body.samples); }
  }

  lemma {:induction false} SampleRefusals(samples: seq<Sample>)
    ensures SampleFailure(samples) in {None, Some(PrivacyViolation), Some(InvalidSample)}
    ensures FirstSampleFailure(samples) in {None, Some(PrivacyViolation), Some(InvalidSample)}
  {
    if samples != [] { SampleRefusals(samples[1..]); }
  }

  /** The first sample with a defect is a malformed one, and no sample has a prohibited key. */
  ghost predicate OnlyMalformed(samples: seq<Sample>) {
    && (forall i :: 0 <= i < |samples| ==> samples[i].check != ProhibitedKey)
    && exists i :: 0 <= i < |samples| && samples[i].check == Malformed
                   && forall j :: 0 <= j < i ==> samples[j].check == Clean
  }

  lemma {:induction false} FirstFailureIs(samples: seq<Sample>)
    ensures FirstSampleFailure(samples) == Some(InvalidSample) <==>
      exists i :: 0 <= i < |samples| && samples[i].check == Malformed
                  && forall j :: 0 <= j < i ==> samples[j].check == Clean
  {
    if samples != [] {
      var rest := samples[1..];
      FirstFailureIs(rest);
      if i :| 0 <= i < |rest| && rest[i].check == Malformed && forall j :: 0 <= j < i ==> rest[j].check == Clean {
        if samples[0].check == Clean {
          forall j | 0 <= j < i + 1
            ensures samples[j].check == Clean
          {
            if j > 0 { assert rest[j - 1].check == Clean; }
          }
          assert samples[i + 1].check == Malformed;
        }
      }
      if i :| 0 < i < |samples| && samples[i].check == Malformed && forall j :: 0 <= j < i ==>
        samples[j].check == Clean {
        assert rest[i - 1].check == Malformed && forall j :: 0 <= j < i - 1 ==> rest[j].check == samples[j + 1].check;
      }
    }
  }

  lemma SampleRefusalIs(samples: seq<Sample>)
    ensures SampleFailure(samples) == Some(InvalidSample) <==> OnlyMalformed(samples)
  {
    FirstFailureIs(samples);
  }

  /** The refusals of a message whose sender and session are in order but whose content is not: a foreign
      type, a malformed envelope or body, and unclean samples, where a sample with a prohibited key, or a first
      defect other than a malformed sample, is a privacy violation. */
  lemma ContentRefusals(cfg: Config, s: ServerState, m: Message, now: Instant)
    requires RightSize(cfg, m) && m.envelope.protocolVersion == "1.0" && Genuine(cfg, m)
    requires m.envelope.session == cfg.session
    ensures var r, e := Reply(cfg, s, m, now).reason, m.envelope;
      var wellFormed := WellFormedEnvelope(e) && WellFormedBody(e.body);
      && (r == UnknownMessageType <==> e.body.OtherType?)
      && (r == InvalidMessage <==> !e.body.OtherType? && !wellFormed)
      && (r == InvalidSample <==> wellFormed && e.body.Batch? && OnlyMalformed(e.body.samples))
      && (r == PrivacyViolation <==>
        wellFormed && e.body.Batch? && !CleanSamples(e.body) && !OnlyMalformed(e.body.samples))
  {
    if m.envelope.body.Batch? {
      SampleRefusals(m.envelope.body.samples);
      SampleRefusalIs(m.envelope.body.samples);
      SampleFailureExactly(m.envelope.body.samples);
    }
  }

  /** The refusals of a presentable message, by the first condition that fails. */
  lemma LateRefusals(cfg: Config, s: ServerState, m: Message, now: Instant)
    requires Presentable(cfg, m) && cfg.maximumSkew >= 0
    ensures var r, e := Reply(cfg, s, m, now).reason, m.envelope;
      var free := FreeId(s, m);
      && (r in {AlreadyAccepted, MessageIdConflict} <==> !free)
      && (r in {StaleSequence, SequenceGap} <==> free && !NextInTurn(s, e))
      && (r == StaleSequence <==> free && e.agentId in s.lastSequence && e.sequence <= s.lastSequence[e.agentId])
      && (r == ClockSkew <==> free && NextInTurn(s, e) && !RecentMessage(cfg, e, now))
      && (r == SampleClockSkew <==>
        free && NextInTurn(s, e) && RecentMessage(cfg, e, now) && !RecentSamples(cfg, e.body, now))
      && (r == BatchChainMismatch <==>
        free && NextInTurn(s, e) && RecentMessage(cfg, e, now) && RecentSamples(cfg, e.body, now) && !InChain(s, e))
  {
    ScreenExactly(cfg, m);
    PresentableId(cfg, m);
    if m.envelope.body.Batch? { SampleSkewExactly(m.envelope.body.samples, now, cfg.maximumSkew); }
  }

  // What is stored

  lemma LoggedSampleIsClean(cfg: Config, log: seq<Arrival>, part: seq<Arrival>, e: Entry)
    requires forall i :: 0 <= i < |log| ==> Screen(cfg, log[i].message).None?
    requires forall x :: x in part ==> x in log
    requires e in AllEntries(part)
    ensures e.sample.check == Clean
  {
    EntryHasBatch(part, e);
    var i :| 0 <= i < |part| && IsBatch(part[i].message) && e.sample in part[i].message.envelope.body.samples;
    assert part[i] in log;
    var j :| 0 <= j < |log| && log[j] == part[i];
    ScreenExactly(cfg, log[j].message);
  }

  /** In every reachable state all samples in both ledgers passed validation. */
  lemma LedgersAreClean(cfg: Config, arrivals: seq<Arrival>, e: Entry)
    ensures forall a :: e in Ledger(Serve(cfg, arrivals).agentSamples, a) ==> e.sample.check == Clean
    ensures forall n :: e in Ledger(Serve(cfg, arrivals).nodeSamples, n) ==> e.sample.check == Clean
  {
    ReachableInv(cfg, arrivals);
    var s, log := Serve(cfg, arrivals), AcceptedLog(cfg, arrivals);
    forall a | e in Ledger(s.agentSamples, a)
      ensures e.sample.check == Clean
    {
      assert Ledger(s.agentSamples, a) == AllEntries(OfAgent(log, a));
      AgentPartInLog(log, a);
      LoggedSampleIsClean(cfg, log, OfAgent(log, a), e);
    }
    forall n | e in Ledger(s.nodeSamples, n)
      ensures e.sample.check == Clean
    {
      assert Ledger(s.nodeSamples, n) == AllEntries(OfNode(log, n));
      NodePartInLog(log, n);
      LoggedSampleIsClean(cfg, log, OfNode(log, n), e);
    }
  }
}
