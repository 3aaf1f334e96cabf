/** What the central service keeps over every run: arbitrary messages, arbitrary clock readings.
    The state is compared with the log of accepted arrivals, which the service itself does not store. */
module ServerRuns {
  import opened Common
  import opened CentralProtocol

  datatype Arrival = Arrival(message: Message, now: Instant)

  function Serve(cfg: Config, arrivals: seq<Arrival>): ServerState {
    if arrivals == [] then EMPTY_STATE
    else
      var last := arrivals[|arrivals| - 1];
      After(cfg, Serve(cfg, arrivals[..|arrivals| - 1]), last.message, last.now)
  }

  predicate TakesEffect(cfg: Config, s: ServerState, x: Arrival) {
    Verdict(cfg, s, x.message, x.now) == Accepted
  }

  /** The arrivals that took effect, in order. */
  function AcceptedLog(cfg: Config, arrivals: seq<Arrival>): seq<Arrival> {
    if arrivals == [] then []
    else
      var init, last := arrivals[..|arrivals| - 1], arrivals[|arrivals| - 1];
      if TakesEffect(cfg, Serve(cfg, init), last) then AcceptedLog(cfg, init) + [last] else AcceptedLog(cfg, init)
  }

  // ----- projections of the log

  function OfAgent(log: seq<Arrival>, a: AgentId): seq<Arrival> {
    if log == [] then []
    else
      var init, last := OfAgent(log[..|log| - 1], a), log[|log| - 1];
      if last.message.envelope.agentId == a then init + [last] else init
  }

  function OfNode(log: seq<Arrival>, n: NodeId): seq<Arrival> {
    if log == [] then []
    else
      var init, last := OfNode(log[..|log| - 1], n), log[|log| - 1];
      if last.message.envelope.nodeId == n then init + [last] else init
  }

  /** The messages of the telemetry batches among some arrivals. */
  function Batches(log: seq<Arrival>): seq<Message> {
    if log == [] then []
    else
      var init, last := Batches(log[..|log| - 1]), log[|log| - 1];
      if IsBatch(last.message) then init + [last.message] else init
  }

  function AllEntries(log: seq<Arrival>): seq<Entry> {
    if log == [] then [] else AllEntries(log[..|log| - 1]) + EntriesOf(log[|log| - 1].message)
  }

  function LastSequenceIn(log: seq<Arrival>): Option<int> {
    if log == [] then None else Some(log[|log| - 1].message.envelope.sequence)
  }

  function LastTimeIn(log: seq<Arrival>): Option<Instant> {
    if log == [] then None else Some(log[|log| - 1].now)
  }

  function LastBatchIn(batches: seq<Message>): Option<MessageId> {
    if batches == [] then None else Some(BatchIdOf(batches[|batches| - 1]))
  }

  // ----- how the projections grow

  lemma OfAgentSnoc(log: seq<Arrival>, x: Arrival, a: AgentId)
    ensures OfAgent(log + [x], a) == if x.message.envelope.agentId == a then OfAgent(log, a) + [x] else OfAgent(log, a)
  {
    assert (log + [x])[..|log|] == log;
  }

  lemma OfNodeSnoc(log: seq<Arrival>, x: Arrival, n: NodeId)
    ensures OfNode(log + [x], n) == if x.message.envelope.nodeId == n then OfNode(log, n) + [x] else OfNode(log, n)
  {
    assert (log + [x])[..|log|] == log;
  }

  lemma BatchesSnoc(log: seq<Arrival>, x: Arrival)
    ensures Batches(log + [x]) == if IsBatch(x.message) then Batches(log) + [x.message] else Batches(log)
  {
    assert (log + [x])[..|log|] == log;
  }

  lemma AllEntriesSnoc(log: seq<Arrival>, x: Arrival)
    ensures AllEntries(log + [x]) == AllEntries(log) + EntriesOf(x.message)
  {
    assert (log + [x])[..|log|] == log;
  }

  lemma ServeSnoc(cfg: Config, arrivals: seq<Arrival>, x: Arrival)
    ensures Serve(cfg, arrivals + [x]) == After(cfg, Serve(cfg, arrivals), x.message, x.now)
    ensures AcceptedLog(cfg, arrivals + [x])
            == if TakesEffect(cfg, Serve(cfg, arrivals), x) then AcceptedLog(cfg, arrivals) + [x]
               else AcceptedLog(cfg, arrivals)
  {
    assert (arrivals + [x])[..|arrivals|] == arrivals;
  }

  // ----- the invariant, in four parts

  /** Message identities: which IDs are known, and with what content. */
  ghost predicate IdentityInv(cfg: Config, s: ServerState, log: seq<Arrival>) {
    && (forall i :: 0 <= i < |log| ==> Screen(cfg, log[i].message).None?)
    && (forall i, j :: 0 <= i < j < |log| ==> IdOf(log[i].message) != IdOf(log[j].message))
    && (forall id :: id in s.seenIds <==> exists i :: 0 <= i < |log| && IdOf(log[i].message) == id)
    && (forall i :: 0 <= i < |log| ==> Lookup(s.digests, IdOf(log[i].message)) == Some(Sha256(log[i].message)))
  }

  /** Sequence numbers without gap or repeat. */
  ghost predicate Consecutive(log: seq<Arrival>) {
    forall i :: 0 < i < |log| ==> log[i].message.envelope.sequence == log[i - 1].message.envelope.sequence + 1
  }

  /** Every batch names its predecessor. */
  ghost predicate Chained(batches: seq<Message>) {
    forall i :: 0 < i < |batches| ==> ParentOf(batches[i]) == Some(BatchIdOf(batches[i - 1]))
  }

  ghost predicate OrderInv(s: ServerState, log: seq<Arrival>, a: AgentId) {
    && Lookup(s.lastSequence, a) == LastSequenceIn(OfAgent(log, a))
    && Lookup(s.lastBatch, a) == LastBatchIn(Batches(OfAgent(log, a)))
    && Consecutive(OfAgent(log, a))
    && Chained(Batches(OfAgent(log, a)))
  }

  ghost predicate SeenInv(s: ServerState, log: seq<Arrival>) {
    && (forall a {:trigger OfAgent(log, a)} :: Lookup(s.agentSeen, a) == LastTimeIn(OfAgent(log, a)))
    && (forall n {:trigger OfNode(log, n)} :: Lookup(s.nodeSeen, n) == LastTimeIn(OfNode(log, n)))
  }

  ghost predicate LedgerInv(s: ServerState, log: seq<Arrival>) {
    && (forall a {:trigger OfAgent(log, a)} :: Ledger(s.agentSamples, a) == AllEntries(OfAgent(log, a)))
    && (forall n {:trigger OfNode(log, n)} :: Ledger(s.nodeSamples, n) == AllEntries(OfNode(log, n)))
  }

  lemma ScreenNeverAccepts(cfg: Config, m: Message)
    ensures Screen(cfg, m).Some? ==> Screen(cfg, m).value !in {Accepted, AlreadyAccepted}
  {
    if m.envelope.body.Batch? { SampleFailureIsRefusal(m.envelope.body.samples); }
  }

  lemma {:induction false} SampleFailureIsRefusal(samples: seq<Sample>)
    ensures SampleFailure(samples).Some? ==> SampleFailure(samples).value !in {Accepted, AlreadyAccepted}
    ensures FirstSampleFailure(samples).Some? ==> FirstSampleFailure(samples).value !in {Accepted, AlreadyAccepted}
  {
    if samples != [] { SampleFailureIsRefusal(samples[1..]); }
  }

  lemma SeenIdsSnoc(s: ServerState, log: seq<Arrival>, x: Arrival)
    requires forall id :: id in s.seenIds <==> exists i :: 0 <= i < |log| && IdOf(log[i].message) == id
    ensures forall id :: id in s.seenIds + {IdOf(x.message)} <==>
      exists i :: 0 <= i < |log + [x]| && IdOf((log + [x])[i].message) == id
  {
    var log' := log + [x];
    forall id
      ensures id in s.seenIds + {IdOf(x.message)} <==> exists i :: 0 <= i < |log'| && IdOf(log'[i].message) == id
    {
      if id in s.seenIds {
        var i :| 0 <= i < |log| && IdOf(log[i].message) == id;
        assert log'[i] == log[i];
      }
      if id == IdOf(x.message) { assert log'[|log|] == x; }
    }
  }

  lemma AcceptedIsNew(cfg: Config, s: ServerState, x: Arrival)
    requires TakesEffect(cfg, s, x)
    ensures Screen(cfg, x.message).None? && IdOf(x.message) !in s.seenIds
  {
    ScreenNeverAccepts(cfg, x.message);
  }

  lemma NewIdSnoc(cfg: Config, s: ServerState, log: seq<Arrival>, x: Arrival)
    requires IdentityInv(cfg, s, log) && IdOf(x.message) !in s.seenIds
    ensures var log' := log + [x];
      forall i, j :: 0 <= i < j < |log'| ==> IdOf(log'[i].message) != IdOf(log'[j].message)
  {
    forall i | 0 <= i < |log|
      ensures IdOf(log[i].message) != IdOf(x.message)
    {
      assert IdOf(log[i].message) in s.seenIds;
    }
  }

  lemma DigestSnoc(s: ServerState, log: seq<Arrival>, x: Arrival)
    requires forall i :: 0 <= i < |log| ==> Lookup(s.digests, IdOf(log[i].message)) == Some(Sha256(log[i].message))
    requires forall i :: 0 <= i < |log| ==> IdOf(log[i].message) != IdOf(x.message)
    ensures var log', digests := log + [x], s.digests[IdOf(x.message) := Sha256(x.message)];
      forall i :: 0 <= i < |log'| ==> Lookup(digests, IdOf(log'[i].message)) == Some(Sha256(log'[i].message))
  {
  }

  lemma CommitKeepsIdentity(cfg: Config, s: ServerState, log: seq<Arrival>, x: Arrival)
    requires IdentityInv(cfg, s, log) && TakesEffect(cfg, s, x)
    ensures IdentityInv(cfg, Commit(s, x.message, x.now), log + [x])
  {
    var log' := log + [x];
    AcceptedIsNew(cfg, s, x);
    NewIdSnoc(cfg, s, log, x);
    SeenIdsSnoc(s, log, x);
    forall i | 0 <= i < |log|
      ensures IdOf(log[i].message) != IdOf(x.message)
    {
      assert IdOf(log'[i].message) != IdOf(log'[|log|].message);
    }
    DigestSnoc(s, log, x);
  }

  /** What the sequence and chain checks let through. */
  ghost predicate Follows(s: ServerState, m: Message) {
    && (Lookup(s.lastSequence, m.envelope.agentId).Some? ==>
          m.envelope.sequence == Lookup(s.lastSequence, m.envelope.agentId).value + 1)
    && (IsBatch(m) && Lookup(s.lastBatch, m.envelope.agentId).Some? ==>
          ParentOf(m) == Lookup(s.lastBatch, m.envelope.agentId))
  }

  lemma AcceptedFollows(cfg: Config, s: ServerState, x: Arrival)
    requires TakesEffect(cfg, s, x)
    ensures Screen(cfg, x.message).None? && Follows(s, x.message)
  {
    ScreenNeverAccepts(cfg, x.message);
  }

  lemma ConsecutiveSnoc(mine: seq<Arrival>, x: Arrival)
    requires Consecutive(mine)
    requires LastSequenceIn(mine).Some? ==> x.message.envelope.sequence == LastSequenceIn(mine).value + 1
    ensures Consecutive(mine + [x])
  {
  }

  lemma ChainedSnoc(batches: seq<Message>, m: Message)
    requires Chained(batches) && (LastBatchIn(batches).Some? ==> ParentOf(m) == LastBatchIn(batches))
    ensures Chained(batches + [m])
  {
  }

  lemma OwnCommitKeepsSequence(s: ServerState, log: seq<Arrival>, x: Arrival)
    requires Follows(s, x.message) && OrderInv(s, log, x.message.envelope.agentId)
    ensures var a, mine := x.message.envelope.agentId, OfAgent(log + [x], x.message.envelope.agentId);
      Lookup(Commit(s, x.message, x.now).lastSequence, a) == LastSequenceIn(mine) && Consecutive(mine)
  {
    OfAgentSnoc(log, x, x.message.envelope.agentId);
    ConsecutiveSnoc(OfAgent(log, x.message.envelope.agentId), x);
  }

  lemma OwnCommitKeepsChain(s: ServerState, log: seq<Arrival>, x: Arrival)
    requires Follows(s, x.message) && OrderInv(s, log, x.message.envelope.agentId)
    ensures var a, batches := x.message.envelope.agentId, Batches(OfAgent(log + [x], x.message.envelope.agentId));
      Lookup(Commit(s, x.message, x.now).lastBatch, a) == LastBatchIn(batches) && Chained(batches)
  {
    var mine := OfAgent(log, x.message.envelope.agentId);
    OfAgentSnoc(log, x, x.message.envelope.agentId);
    BatchesSnoc(mine, x);
    if IsBatch(x.message) { ChainedSnoc(Batches(mine), x.message); }
  }

  lemma OtherCommitKeepsOrder(s: ServerState, log: seq<Arrival>, x: Arrival, a: AgentId)
    requires OrderInv(s, log, a) && x.message.envelope.agentId != a
    ensures OrderInv(Commit(s, x.message, x.now), log + [x], a)
  {
    OfAgentSnoc(log, x, a);
  }

  lemma CommitKeepsOrder(cfg: Config, s: ServerState, log: seq<Arrival>, x: Arrival, a: AgentId)
    requires TakesEffect(cfg, s, x) && OrderInv(s, log, a)
    ensures OrderInv(Commit(s, x.message, x.now), log + [x], a)
  {
    if x.message.envelope.agentId == a {
      AcceptedFollows(cfg, s, x);
      OwnCommitKeepsSequence(s, log, x);
      OwnCommitKeepsChain(s, log, x);
    } else {
      OtherCommitKeepsOrder(s, log, x, a);
    }
  }

  lemma CommitKeepsSeen(s: ServerState, log: seq<Arrival>, x: Arrival)
    requires SeenInv(s, log)
    ensures SeenInv(Commit(s, x.message, x.now), log + [x])
  {
    forall a
      ensures Lookup(Commit(s, x.message, x.now).agentSeen, a) == LastTimeIn(OfAgent(log + [x], a))
    {
      OfAgentSnoc(log, x, a);
      assert Lookup(s.agentSeen, a) == LastTimeIn(OfAgent(log, a));
    }
    forall n
      ensures Lookup(Commit(s, x.message, x.now).nodeSeen, n) == LastTimeIn(OfNode(log + [x], n))
    {
      OfNodeSnoc(log, x, n);
      assert Lookup(s.nodeSeen, n) == LastTimeIn(OfNode(log, n));
    }
  }

  lemma CommitExtendsLedgers(s: ServerState, m: Message, now: Instant, a: AgentId, n: NodeId)
    ensures Ledger(Commit(s, m, now).agentSamples, a) == Ledger(s.agentSamples, a)
      + if m.envelope.agentId == a then EntriesOf(m) else []
    ensures Ledger(Commit(s, m, now).nodeSamples, n) == Ledger(s.nodeSamples, n)
      + if m.envelope.nodeId == n then EntriesOf(m) else []
  {
  }

  lemma AgentEntriesGrow(log: seq<Arrival>, x: Arrival, a: AgentId)
    ensures AllEntries(OfAgent(log + [x], a)) == AllEntries(OfAgent(log, a))
      + if x.message.envelope.agentId == a then EntriesOf(x.message) else []
  {
    OfAgentSnoc(log, x, a);
    if x.message.envelope.agentId == a { AllEntriesSnoc(OfAgent(log, a), x); }
  }

  lemma NodeEntriesGrow(log: seq<Arrival>, x: Arrival, n: NodeId)
    ensures AllEntries(OfNode(log + [x], n)) == AllEntries(OfNode(log, n))
      + if x.message.envelope.nodeId == n then EntriesOf(x.message) else []
  {
    OfNodeSnoc(log, x, n);
    if x.message.envelope.nodeId == n { AllEntriesSnoc(OfNode(log, n), x); }
  }

  lemma CommitKeepsLedgers(s: ServerState, log: seq<Arrival>, x: Arrival)
    requires LedgerInv(s, log)
    ensures LedgerInv(Commit(s, x.message, x.now), log + [x])
  {
    var s' := Commit(s, x.message, x.now);
    forall a
      ensures Ledger(s'.agentSamples, a) == AllEntries(OfAgent(log + [x], a))
    {
      assert Ledger(s.agentSamples, a) == AllEntries(OfAgent(log, a));
      CommitExtendsLedgers(s, x.message, x.now, a, x.message.envelope.nodeId);
      AgentEntriesGrow(log, x, a);
    }
    forall n
      ensures Ledger(s'.nodeSamples, n) == AllEntries(OfNode(log + [x], n))
    {
      assert Ledger(s.nodeSamples, n) == AllEntries(OfNode(log, n));
      CommitExtendsLedgers(s, x.message, x.now, x.message.envelope.agentId, n);
      NodeEntriesGrow(log, x, n);
    }
  }

  /** Every state the service can reach from its start is described by its accepted log. */
  lemma {:induction false} ReachableInv(cfg: Config, arrivals: seq<Arrival>)
    ensures IdentityInv(cfg, Serve(cfg, arrivals), AcceptedLog(cfg, arrivals))
    ensures forall a :: OrderInv(Serve(cfg, arrivals), AcceptedLog(cfg, arrivals), a)
    ensures SeenInv(Serve(cfg, arrivals), AcceptedLog(cfg, arrivals))
    ensures LedgerInv(Serve(cfg, arrivals), AcceptedLog(cfg, arrivals))
  {
    if arrivals != [] {
      var init, x := arrivals[..|arrivals| - 1], arrivals[|arrivals| - 1];
      ReachableInv(cfg, init);
      var s, log := Serve(cfg, init), AcceptedLog(cfg, init);
      if TakesEffect(cfg, s, x) {
        CommitKeepsIdentity(cfg, s, log, x);
        forall a ensures OrderInv(Commit(s, x.message, x.now), log + [x], a) {
          CommitKeepsOrder(cfg, s, log, x, a);
        }
        CommitKeepsSeen(s, log, x);
        CommitKeepsLedgers(s, log, x);
      }
    }
  }

  // ----- the guarantees

  /** Consecutive numbers, one unbroken chain, no ID twice. */
  lemma AcceptedOrder(cfg: Config, arrivals: seq<Arrival>, a: AgentId)
    ensures var mine := OfAgent(AcceptedLog(cfg, arrivals), a);
      forall i :: 0 <= i < |mine| ==>
        mine[i].message.envelope.sequence == mine[0].message.envelope.sequence + i
    ensures var batches := Batches(OfAgent(AcceptedLog(cfg, arrivals), a));
      forall i :: 0 < i < |batches| ==> ParentOf(batches[i]) == Some(BatchIdOf(batches[i - 1]))
    ensures var log := AcceptedLog(cfg, arrivals);
      forall i, j :: 0 <= i < j < |log| ==> IdOf(log[i].message) != IdOf(log[j].message)
  {
    ReachableInv(cfg, arrivals);
    var log := AcceptedLog(cfg, arrivals);
    assert OrderInv(Serve(cfg, arrivals), log, a);
    ConsecutiveFromFirst(OfAgent(log, a));
  }

  lemma ConsecutiveFromFirst(mine: seq<Arrival>)
    requires Consecutive(mine)
    ensures forall i :: 0 <= i < |mine| ==>
      mine[i].message.envelope.sequence == mine[0].message.envelope.sequence + i
  {
    var k := 0;
    while k < |mine|
      invariant 0 <= k <= |mine|
      invariant forall i :: 0 <= i < k ==> mine[i].message.envelope.sequence == mine[0].message.envelope.sequence + i
    {
      if k > 0 { assert mine[k].message.envelope.sequence == mine[k - 1].message.envelope.sequence + 1; }
      k := k + 1;
    }
  }

  ghost predicate InLog(log: seq<Arrival>, m: Message) {
    exists i :: 0 <= i < |log| && log[i].message == m
  }

  lemma KnownVerdict(cfg: Config, s: ServerState, m: Message, now: Instant)
    ensures Verdict(cfg, s, m, now) == AlreadyAccepted <==>
      Screen(cfg, m).None? && IdOf(m) in s.seenIds && Lookup(s.digests, IdOf(m)) == Some(Sha256(m))
  {
    ScreenNeverAccepts(cfg, m);
  }

  lemma KnownInLog(cfg: Config, s: ServerState, log: seq<Arrival>, m: Message)
    requires IdentityInv(cfg, s, log)
    ensures Screen(cfg, m).None? && IdOf(m) in s.seenIds && Lookup(s.digests, IdOf(m)) == Some(Sha256(m)) <==>
      InLog(log, m)
  {
    if IdOf(m) in s.seenIds && Lookup(s.digests, IdOf(m)) == Some(Sha256(m)) {
      var i :| 0 <= i < |log| && IdOf(log[i].message) == IdOf(m);
      assert Lookup(s.digests, IdOf(log[i].message)) == Some(Sha256(log[i].message));
      assert log[i].message == m;
    }
    if InLog(log, m) {
      var i :| 0 <= i < |log| && log[i].message == m;
      assert IdOf(log[i].message) == IdOf(m);
      assert Lookup(s.digests, IdOf(log[i].message)) == Some(Sha256(log[i].message));
    }
  }

  /** The verdict `already_accepted` is given to exactly the messages of the log. */
  lemma KnownExactly(cfg: Config, arrivals: seq<Arrival>, m: Message, now: Instant)
    ensures Verdict(cfg, Serve(cfg, arrivals), m, now) == AlreadyAccepted <==> InLog(AcceptedLog(cfg, arrivals), m)
  {
    ReachableInv(cfg, arrivals);
    KnownVerdict(cfg, Serve(cfg, arrivals), m, now);
    KnownInLog(cfg, Serve(cfg, arrivals), AcceptedLog(cfg, arrivals), m);
  }

  lemma {:induction false} LogGrows(cfg: Config, arrivals: seq<Arrival>, more: seq<Arrival>)
    ensures AcceptedLog(cfg, arrivals) <= AcceptedLog(cfg, arrivals + more)
    decreases |more|
  {
    if more == [] {
      assert arrivals + more == arrivals;
    } else {
      var init, x := more[..|more| - 1], more[|more| - 1];
      LogGrows(cfg, arrivals, init);
      assert arrivals + more == (arrivals + init) + [x];
      ServeSnoc(cfg, arrivals + init, x);
    }
  }

  /** Re-sending an accepted message, in any later state and at any clock value, is acknowledged
      as already accepted and changes nothing, not even the liveness times. */
  lemma ReplayIsIdempotent(cfg: Config, arrivals: seq<Arrival>, more: seq<Arrival>, m: Message, now: Instant)
    requires InLog(AcceptedLog(cfg, arrivals), m)
    ensures var s := Serve(cfg, arrivals + more);
      && Reply(cfg, s, m, now).accepted && Reply(cfg, s, m, now).reason == AlreadyAccepted
      && After(cfg, s, m, now) == s
      && AcceptedLog(cfg, arrivals + more + [Arrival(m, now)]) == AcceptedLog(cfg, arrivals + more)
  {
    LogGrows(cfg, arrivals, more);
    var i :| 0 <= i < |AcceptedLog(cfg, arrivals)| && AcceptedLog(cfg, arrivals)[i].message == m;
    assert AcceptedLog(cfg, arrivals + more)[i].message == m;
    KnownExactly(cfg, arrivals + more, m, now);
    ServeSnoc(cfg, arrivals + more, Arrival(m, now));
  }

  lemma ReplyAccepts(cfg: Config, s: ServerState, m: Message, now: Instant)
    ensures Reply(cfg, s, m, now).accepted <==> Verdict(cfg, s, m, now) in {Accepted, AlreadyAccepted}
    ensures Reply(cfg, s, m, now).accepted ==>
      Reply(cfg, s, m, now).lastAcceptedSequence == Lookup(After(cfg, s, m, now).lastSequence, m.envelope.agentId)
    ensures !Reply(cfg, s, m, now).accepted ==> After(cfg, s, m, now) == s
  {
  }

  lemma AcceptedIsLogged(cfg: Config, arrivals: seq<Arrival>, m: Message, now: Instant)
    ensures Verdict(cfg, Serve(cfg, arrivals), m, now) in {Accepted, AlreadyAccepted} <==>
      InLog(AcceptedLog(cfg, arrivals + [Arrival(m, now)]), m)
  {
    var x := Arrival(m, now);
    var log := AcceptedLog(cfg, arrivals);
    ServeSnoc(cfg, arrivals, x);
    KnownExactly(cfg, arrivals, m, now);
    if TakesEffect(cfg, Serve(cfg, arrivals), x) { assert (log + [x])[|log|].message == m; }
  }

  /** An acknowledgment says `accepted` exactly when the message is part of the log afterwards;
      a refusal leaves the state as it was; and the reported sequence number is that of the
      agent's last logged message. */
  lemma AckMeansLogged(cfg: Config, arrivals: seq<Arrival>, m: Message, now: Instant)
    ensures var s, log' := Serve(cfg, arrivals), AcceptedLog(cfg, arrivals + [Arrival(m, now)]);
      && (Reply(cfg, s, m, now).accepted <==> InLog(log', m))
      && (!Reply(cfg, s, m, now).accepted ==> After(cfg, s, m, now) == s)
      && (Reply(cfg, s, m, now).accepted ==>
            Reply(cfg, s, m, now).lastAcceptedSequence == LastSequenceIn(OfAgent(log', m.envelope.agentId)))
  {
    var x := Arrival(m, now);
    var s := Serve(cfg, arrivals);
    ReplyAccepts(cfg, s, m, now);
    AcceptedIsLogged(cfg, arrivals, m, now);
    assert Serve(cfg, arrivals + [x]) == After(cfg, s, m, now) by { ServeSnoc(cfg, arrivals, x); }
    assert OrderInv(Serve(cfg, arrivals + [x]), AcceptedLog(cfg, arrivals + [x]), m.envelope.agentId) by {
      ReachableInv(cfg, arrivals + [x]);
    }
  }
}
