/** The two parallel sample ledgers, the health tables and the window report over every run. */
module Ledgers {
  import opened Common
  import opened CentralProtocol
  import opened CentralServer
  import opened ServerRuns

  // ----- a node's ledger is an interleaving of its agents' ledgers

  /** The elements of `whole` whose tag is `a`, in order. */
  function Picked(whole: seq<Entry>, tags: seq<AgentId>, a: AgentId): seq<Entry>
    requires |whole| == |tags|
  {
    if whole == [] then []
    else
      var k := |whole| - 1;
      var init := Picked(whole[..k], tags[..k], a);
      if tags[k] == a then init + [whole[k]] else init
  }

  function Repeat(a: AgentId, n: nat): (r: seq<AgentId>)
    ensures |r| == n && forall i :: 0 <= i < n ==> r[i] == a
  {
    seq(n, _ => a)
  }

  /** The agent behind each entry of `AllEntries(log)`. */
  function Tags(log: seq<Arrival>): (r: seq<AgentId>)
    ensures |r| == |AllEntries(log)|
  {
    if log == [] then []
    else
      var last := log[|log| - 1].message;
      Tags(log[..|log| - 1]) + Repeat(last.envelope.agentId, |EntriesOf(last)|)
  }

  lemma {:induction false} PickedAppend(w1: seq<Entry>, t1: seq<AgentId>, w2: seq<Entry>, t2: seq<AgentId>, a: AgentId)
    requires |w1| == |t1| && |w2| == |t2|
    ensures Picked(w1 + w2, t1 + t2, a) == Picked(w1, t1, a) + Picked(w2, t2, a)
    decreases |w2|
  {
    if w2 == [] {
      assert w1 + w2 == w1 && t1 + t2 == t1;
    } else {
      var k := |w2| - 1;
      PickedAppend(w1, t1, w2[..k], t2[..k], a);
      assert (w1 + w2)[..|w1| + k] == w1 + w2[..k];
      assert (t1 + t2)[..|w1| + k] == t1 + t2[..k];
    }
  }

  lemma {:induction false} PickedUniform(w: seq<Entry>, b: AgentId, a: AgentId)
    ensures Picked(w, Repeat(b, |w|), a) == if a == b then w else []
  {
    if w != [] {
      var k := |w| - 1;
      PickedUniform(w[..k], b, a);
      assert Repeat(b, |w|)[..k] == Repeat(b, k);
    }
  }

  /** Picking one agent out of a node's part of the log gives that agent's own part. */
  lemma {:induction false} PickedIsAgentPart(cfg: Config, log: seq<Arrival>, n: NodeId, a: AgentId)
    requires forall i :: 0 <= i < |log| ==> Screen(cfg, log[i].message).None?
    requires a in cfg.registrations && cfg.registrations[a].nodeId == n
    ensures Picked(AllEntries(OfNode(log, n)), Tags(OfNode(log, n)), a) == AllEntries(OfAgent(log, a))
  {
    if log != [] {
      var init, x := log[..|log| - 1], log[|log| - 1];
      assert log == init + [x];
      PickedIsAgentPart(cfg, init, n, a);
      OfNodeSnoc(init, x, n);
      OfAgentSnoc(init, x, a);
      AllEntriesSnoc(OfNode(init, n), x);
      AllEntriesSnoc(OfAgent(init, a), x);
      if x.message.envelope.nodeId == n {
        var part := OfNode(init, n);
        assert (part + [x])[..|part|] == part;
        PickedAppend(AllEntries(part), Tags(part), EntriesOf(x.message),
                     Repeat(x.message.envelope.agentId, |EntriesOf(x.message)|), a);
        PickedUniform(EntriesOf(x.message), x.message.envelope.agentId, a);
      }
    }
  }

  lemma {:induction false} TagsAreOnNode(cfg: Config, log: seq<Arrival>, n: NodeId, i: nat)
    requires forall k :: 0 <= k < |log| ==> Screen(cfg, log[k].message).None?
    requires i < |Tags(OfNode(log, n))|
    ensures Tags(OfNode(log, n))[i] in cfg.registrations
    ensures cfg.registrations[Tags(OfNode(log, n))[i]].nodeId == n
  {
    var init, x := log[..|log| - 1], log[|log| - 1];
    assert log == init + [x];
    OfNodeSnoc(init, x, n);
    var part := OfNode(init, n);
    assert (part + [x])[..|part|] == part;
    if i < |Tags(part)| { TagsAreOnNode(cfg, init, n, i); }
  }

  /** In every reachable state each entry of a node's ledger belongs to exactly one agent of that
      node, and an agent's ledger is what it contributed, in the same order. */
  lemma NodeLedgerInterleavesAgentLedgers(cfg: Config, arrivals: seq<Arrival>, n: NodeId) returns (tags: seq<AgentId>)
    ensures var s := Serve(cfg, arrivals);
      && |tags| == |Ledger(s.nodeSamples, n)|
      && (forall i :: 0 <= i < |tags| ==> tags[i] in cfg.registrations && cfg.registrations[tags[i]].nodeId == n)
      && (forall a :: a in cfg.registrations && cfg.registrations[a].nodeId == n ==>
            Picked(Ledger(s.nodeSamples, n), tags, a) == Ledger(s.agentSamples, a))
  {
    ReachableInv(cfg, arrivals);
    var s, log := Serve(cfg, arrivals), AcceptedLog(cfg, arrivals);
    tags := Tags(OfNode(log, n));
    assert Ledger(s.nodeSamples, n) == AllEntries(OfNode(log, n));
    forall i | 0 <= i < |tags|
      ensures tags[i] in cfg.registrations && cfg.registrations[tags[i]].nodeId == n
    {
      TagsAreOnNode(cfg, log, n, i);
    }
    forall a | a in cfg.registrations && cfg.registrations[a].nodeId == n
      ensures Picked(Ledger(s.nodeSamples, n), tags, a) == Ledger(s.agentSamples, a)
    {
      PickedIsAgentPart(cfg, log, n, a);
      assert Ledger(s.agentSamples, a) == AllEntries(OfAgent(log, a));
    }
  }

  // ----- counts

  function CountIn(entries: seq<Entry>, start: Instant, end: Instant): nat {
    |Selected(entries, start, end)|
  }

  lemma {:induction false} SelectedAppend(x: seq<Entry>, y: seq<Entry>, start: Instant, end: Instant)
    ensures Selected(x + y, start, end) == Selected(x, start, end) + Selected(y, start, end)
    decreases |y|
  {
    if y == [] {
      assert x + y == x;
    } else {
      assert (x + y)[..|x + y| - 1] == x + y[..|y| - 1];
      SelectedAppend(x, y[..|y| - 1], start, end);
    }
  }

  lemma {:induction false} CountSplits(entries: seq<Entry>, start: Instant, middle: Instant, end: Instant)
    requires start <= middle <= end
    ensures CountIn(entries, start, end) == CountIn(entries, start, middle) + CountIn(entries, middle, end)
  {
    if entries != [] { CountSplits(entries[..|entries| - 1], start, middle, end); }
  }

  /** What agent `a` contributes to the samples of node `n` in the window. */
  function Part(cfg: Config, s: ServerState, a: AgentId, n: NodeId, start: Instant, end: Instant): multiset<Entry> {
    if a in cfg.registrations && cfg.registrations[a].nodeId == n
    then multiset(Selected(Ledger(s.agentSamples, a), start, end)) else multiset{}
  }

  /** The window samples of the listed agents that run on node `n`, put together. */
  function Pool(cfg: Config, s: ServerState, agents: seq<AgentId>, n: NodeId, start: Instant,
      end: Instant): multiset<Entry> {
    if agents == [] then multiset{}
    else Part(cfg, s, agents[0], n, start, end) + Pool(cfg, s, agents[1..], n, start, end)
  }

  function SelectedIf(condition: bool, m: Message, start: Instant, end: Instant): multiset<Entry> {
    if condition then multiset(Selected(EntriesOf(m), start, end)) else multiset{}
  }

  lemma PartGrows(cfg: Config, s: ServerState, m: Message, now: Instant, a: AgentId, n: NodeId, start: Instant,
      end: Instant)
    requires Screen(cfg, m).None?
    ensures Part(cfg, Commit(s, m, now), a, n, start, end)
            == Part(cfg, s, a, n, start, end)
               + SelectedIf(m.envelope.agentId == a && m.envelope.nodeId == n, m, start, end)
  {
    CommitExtendsLedgers(s, m, now, a, n);
    if a == m.envelope.agentId { SelectedAppend(Ledger(s.agentSamples, a), EntriesOf(m), start, end); }
  }

  /** An accepted message of agent `a` adds its own samples to the pool of its node, once. */
  lemma {:induction false} PoolGrows(cfg: Config, s: ServerState, m: Message, now: Instant,
                                     agents: seq<AgentId>, n: NodeId, start: Instant, end: Instant)
    requires Distinct(agents) && Screen(cfg, m).None?
    ensures Pool(cfg, Commit(s, m, now), agents, n, start, end)
            == Pool(cfg, s, agents, n, start, end)
               + SelectedIf(m.envelope.agentId in agents && m.envelope.nodeId == n, m, start, end)
  {
    if agents != [] {
      var rest := agents[1..];
      assert agents == [agents[0]] + rest;
      forall i, j | 0 <= i < j < |rest| ensures rest[i] != rest[j] {
        assert rest[i] == agents[i + 1] && rest[j] == agents[j + 1];
      }
      PoolGrows(cfg, s, m, now, rest, n, start, end);
      PartGrows(cfg, s, m, now, agents[0], n, start, end);
      assert agents[0] !in rest;
    }
  }

  lemma {:induction false} EmptyPool(cfg: Config, agents: seq<AgentId>, n: NodeId, start: Instant, end: Instant)
    ensures Pool(cfg, EMPTY_STATE, agents, n, start, end) == multiset{}
  {
    if agents != [] { EmptyPool(cfg, agents[1..], n, start, end); }
  }

  lemma NodeWindowGrows(s: ServerState, m: Message, now: Instant, n: NodeId, start: Instant, end: Instant)
    ensures multiset(Selected(Ledger(Commit(s, m, now).nodeSamples, n), start, end))
            == multiset(Selected(Ledger(s.nodeSamples, n), start, end))
              + SelectedIf(m.envelope.nodeId == n, m, start, end)
  {
    CommitExtendsLedgers(s, m, now, m.envelope.agentId, n);
    if m.envelope.nodeId == n { SelectedAppend(Ledger(s.nodeSamples, n), EntriesOf(m), start, end); }
  }

  /** In any window a node's samples are those of its agents put together, each once. */
  lemma {:induction false} NodeWindowIsAgentPool(cfg: Config, arrivals: seq<Arrival>, n: NodeId, start: Instant,
      end: Instant)
    requires ValidConfig(cfg)
    ensures multiset(Selected(Ledger(Serve(cfg, arrivals).nodeSamples, n), start, end))
            == Pool(cfg, Serve(cfg, arrivals), cfg.expectedAgents, n, start, end)
  {
    if arrivals == [] {
      EmptyPool(cfg, cfg.expectedAgents, n, start, end);
    } else {
      var init, x := arrivals[..|arrivals| - 1], arrivals[|arrivals| - 1];
      NodeWindowIsAgentPool(cfg, init, n, start, end);
      var s := Serve(cfg, init);
      if TakesEffect(cfg, s, x) {
        AcceptedFollows(cfg, s, x);
        PoolGrows(cfg, s, x.message, x.now, cfg.expectedAgents, n, start, end);
        NodeWindowGrows(s, x.message, x.now, n, start, end);
      }
    }
  }

  /** The window counts of the listed agents that run on node `n`, added up. */
  function SumOnNode(cfg: Config, s: ServerState, agents: seq<AgentId>, n: NodeId, start: Instant, end: Instant): nat {
    if agents == [] then 0
    else
      (if agents[0] in cfg.registrations && cfg.registrations[agents[0]].nodeId == n
       then CountIn(Ledger(s.agentSamples, agents[0]), start, end) else 0)
      + SumOnNode(cfg, s, agents[1..], n, start, end)
  }

  lemma {:induction false} PoolSize(cfg: Config, s: ServerState, agents: seq<AgentId>, n: NodeId, start: Instant,
      end: Instant)
    ensures |Pool(cfg, s, agents, n, start, end)| == SumOnNode(cfg, s, agents, n, start, end)
  {
    if agents != [] { PoolSize(cfg, s, agents[1..], n, start, end); }
  }

  /** So a node's sample count is the sum of its agents' counts. */
  lemma NodeCountIsAgentSum(cfg: Config, arrivals: seq<Arrival>, n: NodeId, start: Instant, end: Instant)
    requires ValidConfig(cfg)
    ensures CountIn(Ledger(Serve(cfg, arrivals).nodeSamples, n), start, end)
            == SumOnNode(cfg, Serve(cfg, arrivals), cfg.expectedAgents, n, start, end)
  {
    NodeWindowIsAgentPool(cfg, arrivals, n, start, end);
    PoolSize(cfg, Serve(cfg, arrivals), cfg.expectedAgents, n, start, end);
  }

  lemma {:induction false} SumDominates(cfg: Config, s: ServerState, agents: seq<AgentId>, a: AgentId, n: NodeId,
      start: Instant, end: Instant)
    requires a in agents && a in cfg.registrations && cfg.registrations[a].nodeId == n
    ensures CountIn(Ledger(s.agentSamples, a), start, end) <= SumOnNode(cfg, s, agents, n, start, end)
  {
    if agents[0] != a { SumDominates(cfg, s, agents[1..], a, n, start, end); }
  }

  // ----- liveness

  /** Some agent of the node was last seen at the very moment the node was. */
  lemma NodeSeenThroughAgent(cfg: Config, arrivals: seq<Arrival>, n: NodeId) returns (a: AgentId)
    requires n in Serve(cfg, arrivals).nodeSeen
    ensures a in cfg.registrations && cfg.registrations[a].nodeId == n
    ensures Lookup(Serve(cfg, arrivals).agentSeen, a) == Lookup(Serve(cfg, arrivals).nodeSeen, n)
  {
    ReachableInv(cfg, arrivals);
    var s, log := Serve(cfg, arrivals), AcceptedLog(cfg, arrivals);
    assert Lookup(s.nodeSeen, n) == LastTimeIn(OfNode(log, n));
    a := LastOfNode(cfg, log, n);
    assert Lookup(s.agentSeen, a) == LastTimeIn(OfAgent(log, a));
  }

  lemma {:induction false} LastOfNode(cfg: Config, log: seq<Arrival>, n: NodeId) returns (a: AgentId)
    requires forall i :: 0 <= i < |log| ==> Screen(cfg, log[i].message).None?
    requires OfNode(log, n) != []
    ensures a in cfg.registrations && cfg.registrations[a].nodeId == n
    ensures LastTimeIn(OfAgent(log, a)) == LastTimeIn(OfNode(log, n))
  {
    var init, x := log[..|log| - 1], log[|log| - 1];
    a := x.message.envelope.agentId;
    if x.message.envelope.nodeId != n {
      a := LastOfNode(cfg, init, n);
    }
  }

  /** No node has been heard of later than its agents were, once clock readings never go back. */
  ghost predicate ClockOrdered(arrivals: seq<Arrival>) {
    forall i, j :: 0 <= i < j < |arrivals| ==> arrivals[i].now <= arrivals[j].now
  }

  lemma {:induction false} AgentSeenNotAfterNode(cfg: Config, arrivals: seq<Arrival>, a: AgentId)
    requires ClockOrdered(arrivals)
    requires a in Serve(cfg, arrivals).agentSeen
    ensures a in cfg.registrations
    ensures var s, n := Serve(cfg, arrivals), cfg.registrations[a].nodeId;
      n in s.nodeSeen && s.agentSeen[a] <= s.nodeSeen[n] <= arrivals[|arrivals| - 1].now
  {
    var init, x := arrivals[..|arrivals| - 1], arrivals[|arrivals| - 1];
    ScreenNeverAccepts(cfg, x.message);
    if a in Serve(cfg, init).agentSeen {
      AgentSeenNotAfterNode(cfg, init, a);
    }
  }

  // ----- the window report

  /** `complete` says no more than that no agent is missing: a missing or stale node always has a
      missing or stale agent, because node health is read no later than agent health. */
  lemma CompleteIffNoAgentMissing(cfg: Config, arrivals: seq<Arrival>, start: Instant, end: Instant, nodeNow: Instant,
      agentNow: Instant, r: Aggregate)
    requires ValidConfig(cfg) && nodeNow <= agentNow
    requires Reports(cfg, Serve(cfg, arrivals), start, end, nodeNow, agentNow, r)
    ensures forall n :: n in r.missingNodes ==>
      exists a :: a in r.missingAgents && r.agents[a].nodeId == n
    ensures r.complete <==> r.missingAgents == {}
  {
    forall n | n in r.missingNodes
      ensures exists a :: a in r.missingAgents && r.agents[a].nodeId == n
    {
      var a := MissingAgentOf(cfg, arrivals, start, end, nodeNow, agentNow, r, n);
    }
    assert r.missingAgents == {} ==> forall n :: n !in r.missingNodes;
  }

  /** An expected agent of the node that is itself absent is missing in the report. */
  lemma AbsentIsMissing(cfg: Config, s: ServerState, start: Instant, end: Instant, nodeNow: Instant, agentNow: Instant,
      r: Aggregate, a: AgentId)
    requires ValidConfig(cfg) && Reports(cfg, s, start, end, nodeNow, agentNow, r) && a in cfg.registrations
    requires AgentAbsent(cfg, s, a, start, end, agentNow)
    ensures a in r.missingAgents && r.agents[a].nodeId == cfg.registrations[a].nodeId
  {
    assert r.agents[a] == AgentSummaryOf(cfg, s, a, start, end, agentNow);
  }

  lemma MissingNodeIs(cfg: Config, s: ServerState, start: Instant, end: Instant, nodeNow: Instant, agentNow: Instant,
      r: Aggregate, n: NodeId)
    requires ValidConfig(cfg) && Reports(cfg, s, start, end, nodeNow, agentNow, r) && n in r.missingNodes
    ensures n in cfg.expectedNodes
    ensures Absent(HealthOf(Lookup(s.nodeSeen, n), nodeNow, cfg.staleAfter),
      CountIn(Ledger(s.nodeSamples, n), start, end))
  {
    assert r.nodes[n] == NodeSummaryOf(cfg, s, n, start, end, nodeNow);
  }

  /** A node without samples in the window has agents without samples. */
  lemma EmptyNodeHasEmptyAgents(cfg: Config, arrivals: seq<Arrival>, a: AgentId, start: Instant, end: Instant)
    requires ValidConfig(cfg) && a in cfg.registrations
    requires CountIn(Ledger(Serve(cfg, arrivals).nodeSamples, cfg.registrations[a].nodeId), start, end) == 0
    ensures CountIn(Ledger(Serve(cfg, arrivals).agentSamples, a), start, end) == 0
  {
    NodeCountIsAgentSum(cfg, arrivals, cfg.registrations[a].nodeId, start, end);
    SumDominates(cfg, Serve(cfg, arrivals), cfg.expectedAgents, a, cfg.registrations[a].nodeId, start, end);
  }

  ghost predicate AgentAbsent(cfg: Config, s: ServerState, a: AgentId, start: Instant, end: Instant, now: Instant) {
    Absent(HealthOf(Lookup(s.agentSeen, a), now, cfg.staleAfter), CountIn(Ledger(s.agentSamples, a), start, end))
  }

  /** An absent node, whatever the reason, has an absent agent. */
  lemma AbsentAgentOf(cfg: Config, arrivals: seq<Arrival>, n: NodeId, start: Instant, end: Instant, nodeNow: Instant,
      agentNow: Instant)
      returns (a: AgentId)
    requires ValidConfig(cfg) && nodeNow <= agentNow && n in cfg.expectedNodes
    requires var s := Serve(cfg, arrivals);
      Absent(HealthOf(Lookup(s.nodeSeen, n), nodeNow, cfg.staleAfter), CountIn(Ledger(s.nodeSamples, n), start, end))
    ensures a in cfg.registrations && cfg.registrations[a].nodeId == n
    ensures AgentAbsent(cfg, Serve(cfg, arrivals), a, start, end, agentNow)
  {
    var s := Serve(cfg, arrivals);
    if n in s.nodeSeen && !HealthOf(Lookup(s.nodeSeen, n), nodeNow, cfg.staleAfter).Healthy? {
      a := NodeSeenThroughAgent(cfg, arrivals, n);
    } else {
      a :| a in cfg.registrations && cfg.registrations[a].nodeId == n;
      if n in s.nodeSeen {
        EmptyNodeHasEmptyAgents(cfg, arrivals, a, start, end);
      } else if a in s.agentSeen {
        NeverSeenNode(cfg, arrivals, a);
      }
    }
  }

  lemma MissingAgentOf(cfg: Config, arrivals: seq<Arrival>, start: Instant, end: Instant, nodeNow: Instant,
      agentNow: Instant, r: Aggregate, n: NodeId)
      returns (a: AgentId)
    requires ValidConfig(cfg) && nodeNow <= agentNow
    requires Reports(cfg, Serve(cfg, arrivals), start, end, nodeNow, agentNow, r)
    requires n in r.missingNodes
    ensures a in r.missingAgents && r.agents[a].nodeId == n
  {
    MissingNodeIs(cfg, Serve(cfg, arrivals), start, end, nodeNow, agentNow, r, n);
    a := AbsentAgentOf(cfg, arrivals, n, start, end, nodeNow, agentNow);
    AbsentIsMissing(cfg, Serve(cfg, arrivals), start, end, nodeNow, agentNow, r, a);
  }

  lemma {:induction false} NeverSeenNode(cfg: Config, arrivals: seq<Arrival>, a: AgentId)
    requires a in Serve(cfg, arrivals).agentSeen
    ensures a in cfg.registrations && cfg.registrations[a].nodeId in Serve(cfg, arrivals).nodeSeen
  {
    var init, x := arrivals[..|arrivals| - 1], arrivals[|arrivals| - 1];
    ScreenNeverAccepts(cfg, x.message);
    if a in Serve(cfg, init).agentSeen { NeverSeenNode(cfg, init, a); }
  }

  /** With a clock that never goes back, a node that is not healthy has no healthy agent. */
  lemma UnhealthyNodeHasNoHealthyAgent(cfg: Config, arrivals: seq<Arrival>, nodeNow: Instant, agentNow: Instant,
      a: AgentId)
    requires ClockOrdered(arrivals) && nodeNow <= agentNow && a in cfg.registrations
    ensures var s := Serve(cfg, arrivals);
      !HealthOf(Lookup(s.nodeSeen, cfg.registrations[a].nodeId), nodeNow, cfg.staleAfter).Healthy?
      ==> !HealthOf(Lookup(s.agentSeen, a), agentNow, cfg.staleAfter).Healthy?
  {
    if a in Serve(cfg, arrivals).agentSeen { AgentSeenNotAfterNode(cfg, arrivals, a); }
  }

  lemma {:induction false} EntryHasBatch(log: seq<Arrival>, e: Entry)
    requires e in AllEntries(log)
    ensures exists i :: 0 <= i < |log| && IsBatch(log[i].message) && BatchIdOf(log[i].message) == e.batchId
                        && e.sample in log[i].message.envelope.body.samples
  {
    var init, x := log[..|log| - 1], log[|log| - 1];
    if e in AllEntries(init) {
      EntryHasBatch(init, e);
      var i :| 0 <= i < |init| && IsBatch(init[i].message) && BatchIdOf(init[i].message) == e.batchId
               && e.sample in init[i].message.envelope.body.samples;
      assert log[i] == init[i];
    } else {
      assert e in EntriesOf(x.message);
    }
  }

  lemma {:induction false} PartOfAgent(log: seq<Arrival>, a: AgentId, i: nat)
    requires i < |OfAgent(log, a)|
    ensures OfAgent(log, a)[i] in log
  {
    var init := log[..|log| - 1];
    if i < |OfAgent(init, a)| { PartOfAgent(init, a, i); }
  }

  ghost predicate SampledIn(m: Message, start: Instant, end: Instant)
    requires IsBatch(m)
  {
    exists sample :: sample in m.envelope.body.samples && start <= sample.observedAt < end
  }

  lemma {:induction false} PartOfNode(log: seq<Arrival>, n: NodeId, i: nat)
    requires i < |OfNode(log, n)|
    ensures OfNode(log, n)[i] in log
  {
    var init := log[..|log| - 1];
    if i < |OfNode(init, n)| { PartOfNode(init, n, i); }
  }

  lemma AgentPartInLog(log: seq<Arrival>, a: AgentId)
    ensures forall x :: x in OfAgent(log, a) ==> x in log
  {
    forall x | x in OfAgent(log, a)
      ensures x in log
    {
      var i :| 0 <= i < |OfAgent(log, a)| && OfAgent(log, a)[i] == x;
      PartOfAgent(log, a, i);
    }
  }

  lemma NodePartInLog(log: seq<Arrival>, n: NodeId)
    ensures forall x :: x in OfNode(log, n) ==> x in log
  {
    forall x | x in OfNode(log, n)
      ensures x in log
    {
      var i :| 0 <= i < |OfNode(log, n)| && OfNode(log, n)[i] == x;
      PartOfNode(log, n, i);
    }
  }

  /** A logged batch of this id with a sample in the window. */
  ghost predicate Backed(log: seq<Arrival>, b: MessageId, start: Instant, end: Instant) {
    exists x :: x in log && IsBatch(x.message) && BatchIdOf(x.message) == b && SampledIn(x.message, start, end)
  }

  lemma EntryIsBacked(log: seq<Arrival>, part: seq<Arrival>, e: Entry, start: Instant, end: Instant)
    requires forall x :: x in part ==> x in log
    requires e in AllEntries(part) && InWindow(e, start, end)
    ensures Backed(log, e.batchId, start, end)
  {
    EntryHasBatch(part, e);
    var i :| 0 <= i < |part| && IsBatch(part[i].message) && BatchIdOf(part[i].message) == e.batchId
             && e.sample in part[i].message.envelope.body.samples;
    assert part[i] in log && SampledIn(part[i].message, start, end);
  }

  lemma AgentEvidence(cfg: Config, arrivals: seq<Arrival>, b: MessageId, start: Instant, end: Instant)
    requires Contributes(Serve(cfg, arrivals).agentSamples, cfg.expectedAgents, b, start, end)
    ensures Backed(AcceptedLog(cfg, arrivals), b, start, end)
  {
    ReachableInv(cfg, arrivals);
    var s, log := Serve(cfg, arrivals), AcceptedLog(cfg, arrivals);
    var a, e :| a in cfg.expectedAgents && e in Ledger(s.agentSamples, a) && InWindow(e, start, end) && e.batchId == b;
    assert Ledger(s.agentSamples, a) == AllEntries(OfAgent(log, a));
    AgentPartInLog(log, a);
    EntryIsBacked(log, OfAgent(log, a), e, start, end);
  }

  lemma NodeEvidence(cfg: Config, arrivals: seq<Arrival>, b: MessageId, start: Instant, end: Instant)
    requires Contributes(Serve(cfg, arrivals).nodeSamples, cfg.expectedNodes, b, start, end)
    ensures Backed(AcceptedLog(cfg, arrivals), b, start, end)
  {
    ReachableInv(cfg, arrivals);
    var s, log := Serve(cfg, arrivals), AcceptedLog(cfg, arrivals);
    var n, e :| n in cfg.expectedNodes && e in Ledger(s.nodeSamples, n) && InWindow(e, start, end) && e.batchId == b;
    assert Ledger(s.nodeSamples, n) == AllEntries(OfNode(log, n));
    NodePartInLog(log, n);
    EntryIsBacked(log, OfNode(log, n), e, start, end);
  }

  /** Every batch a window report names as evidence was accepted and holds a sample of that window. */
  lemma EvidenceWasAccepted(cfg: Config, arrivals: seq<Arrival>, start: Instant, end: Instant,
                            nodeNow: Instant, agentNow: Instant, r: Aggregate, b: MessageId)
    requires ValidConfig(cfg) && Reports(cfg, Serve(cfg, arrivals), start, end, nodeNow, agentNow, r)
    requires b in r.evidence
    ensures Backed(AcceptedLog(cfg, arrivals), b, start, end)
  {
    if Contributes(Serve(cfg, arrivals).nodeSamples, cfg.expectedNodes, b, start, end) {
      NodeEvidence(cfg, arrivals, b, start, end);
    } else {
      AgentEvidence(cfg, arrivals, b, start, end);
    }
  }

  // ----- the detector

  /** From the agents' loss to the detector: as soon as one expected agent is missing, stale or has
      no sample in the window, the decision abstains and carries no score, whatever the scorer. */
  lemma MissingAgentForcesAbstention(cfg: Config, s: ServerState, start: Instant, end: Instant, nodeNow: Instant,
      agentNow: Instant, r: Aggregate, d: DetectorService, a: AgentId)
    requires ValidConfig(cfg) && Reports(cfg, s, start, end, nodeNow, agentNow, r)
    requires a in cfg.registrations
    requires var summary := AgentSummaryOf(cfg, s, a, start, end, agentNow); Absent(summary.health, summary.sampleCount)
    ensures d.Decide(r) == Ok(Decision(None, true, r.missingNodes))
  {
    assert r.agents[a] == AgentSummaryOf(cfg, s, a, start, end, agentNow);
    assert a in r.missingAgents;
  }

  /** A score is reported only over a window in which every expected agent and node is healthy and
      represented, and it lies in [0, 1]. */
  lemma ScoreOnlyOnCompleteWindow(cfg: Config, s: ServerState, start: Instant, end: Instant, nodeNow: Instant,
      agentNow: Instant, r: Aggregate, d: DetectorService)
    requires ValidConfig(cfg) && Reports(cfg, s, start, end, nodeNow, agentNow, r)
    requires d.Decide(r).Ok? && d.Decide(r).value.score.Some?
    ensures 0.0 <= d.Decide(r).value.score.value <= 1.0
    ensures forall a :: a in cfg.registrations ==>
      CountIn(Ledger(s.agentSamples, a), start, end) > 0
      && a in s.agentSeen && agentNow - s.agentSeen[a] <= cfg.staleAfter
    ensures forall n :: n in cfg.expectedNodes ==>
      CountIn(Ledger(s.nodeSamples, n), start, end) > 0
      && n in s.nodeSeen && nodeNow - s.nodeSeen[n] <= cfg.staleAfter
  {
    forall a | a in cfg.registrations
      ensures CountIn(Ledger(s.agentSamples, a), start, end) > 0
        && a in s.agentSeen && agentNow - s.agentSeen[a] <= cfg.staleAfter
    {
      assert r.agents[a] == AgentSummaryOf(cfg, s, a, start, end, agentNow);
      assert a !in r.missingAgents;
    }
    forall n | n in cfg.expectedNodes
      ensures CountIn(Ledger(s.nodeSamples, n), start, end) > 0
        && n in s.nodeSeen && nodeNow - s.nodeSeen[n] <= cfg.staleAfter
    {
      assert r.nodes[n] == NodeSummaryOf(cfg, s, n, start, end, nodeNow);
      assert n !in r.missingNodes;
    }
  }
}
