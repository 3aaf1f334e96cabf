/** The gap a heartbeat leaves when it never takes effect. */
module DeliverySkips {
  import opened Common
  import opened CentralProtocol
  import opened ServerRuns
  import opened NodeAgents
  import opened Delivery
  import opened DeliveryProgress

  /** The service counts below the number of heartbeat `b`, the agent beyond it, and nothing else that was
      sent or is queued carries that number. */
  ghost predicate Skipped(cfg: Config, me: Identity, w: World, b: Message) {
    && Lookup(Serve(cfg, w.arrivals).lastSequence, me.agentId).Some?
    && Lookup(Serve(cfg, w.arrivals).lastSequence, me.agentId).value < b.envelope.sequence < w.agent.nextSequence
    && (forall m :: m in w.sent && m != b ==> m.envelope.sequence != b.envelope.sequence)
    && (forall i :: 0 <= i < |w.agent.pending| ==> w.agent.pending[i].envelope.sequence != b.envelope.sequence)
  }

  predicate Redelivers(e: Event, b: Message) {
    e.Redeliver? && e.message == b
  }

  lemma ServiceStaysBelow(cfg: Config, me: Identity, arrivals: seq<Arrival>, x: Arrival, q: int)
    requires Registered(cfg, me)
    requires var last := Lookup(Serve(cfg, arrivals).lastSequence, me.agentId); last.Some? && last.value < q
    requires Authentic(me, x.message) ==> x.message.envelope.sequence != q
    ensures var last := Lookup(Serve(cfg, arrivals + [x]).lastSequence, me.agentId); last.Some? && last.value < q
  {
    ServeSnoc(cfg, arrivals, x);
    if TakesEffect(cfg, Serve(cfg, arrivals), x) {
      AcceptedFollows(cfg, Serve(cfg, arrivals), x);
      if x.message.envelope.agentId == me.agentId { ScreenedIsAuthentic(cfg, me, x.message); }
    }
  }

  lemma ArrivalKeepsSkipped(cfg: Config, me: Identity, w: World, x: Arrival, b: Message)
    requires Registered(cfg, me) && Skipped(cfg, me, w, b)
    requires Authentic(me, x.message) ==> x.message.envelope.sequence != b.envelope.sequence
    ensures Skipped(cfg, me, w.(arrivals := w.arrivals + [x]), b)
  {
    ServiceStaysBelow(cfg, me, w.arrivals, x, b.envelope.sequence);
  }

  lemma AttemptKeepsSkipped(cfg: Config, me: Identity, via: Channel, w: World, m: Message, c: Conditions, b: Message)
    requires Registered(cfg, me) && Skipped(cfg, me, w, b)
    requires Authentic(me, m) ==> m.envelope.sequence != b.envelope.sequence
    ensures Skipped(cfg, me, AfterAttempt(cfg, via, w, m, c), b)
  {
    if Reaches(via, w.link, m, c) { ArrivalKeepsSkipped(cfg, me, w, Arrival(m, c.now), b); }
  }

  /** What the agent itself does with its queue, its counter and its messages. */
  lemma AgentKeepsSkipped(cfg: Config, me: Identity, w: World, w': World, b: Message)
    requires Skipped(cfg, me, w, b) && w'.arrivals == w.arrivals
    requires w.agent.nextSequence <= w'.agent.nextSequence
    requires forall m :: m in w'.sent && m !in w.sent ==> m.envelope.sequence != b.envelope.sequence
    requires forall i :: 0 <= i < |w'.agent.pending| ==> w'.agent.pending[i].envelope.sequence != b.envelope.sequence
    ensures Skipped(cfg, me, w', b)
  {
  }

  lemma SendKeepsSkipped(cfg: Config, me: Identity, ch: Channel, w: World, c: Conditions, b: Message)
    requires Registered(cfg, me) && Skipped(cfg, me, w, b) && w.agent.pending != []
    ensures Skipped(cfg, me, Next(cfg, me, ch, w, SendHead(c)), b)
  {
    var w1 := AfterAttempt(cfg, ch, w, w.agent.pending[0], c);
    AttemptKeepsSkipped(cfg, me, ch, w, w.agent.pending[0], c, b);
    AgentKeepsSkipped(cfg, me, w1, Next(cfg, me, ch, w, SendHead(c)), b);
  }

  lemma BeatKeepsSkipped(cfg: Config, me: Identity, ch: Channel, w: World, e: Event, b: Message)
    requires Registered(cfg, me) && Skipped(cfg, me, w, b) && e.Beat?
    ensures Skipped(cfg, me, Next(cfg, me, ch, w, e), b)
  {
    var beat := NewHeartbeat(me, w.agent, e.id, e.createdAt, e.encodedBytes);
    AttemptKeepsSkipped(cfg, me, ch, w, beat, e.conditions, b);
    AgentKeepsSkipped(cfg, me, AfterAttempt(cfg, ch, w, beat, e.conditions), Next(cfg, me, ch, w, e), b);
  }

  lemma CollectKeepsSkipped(cfg: Config, me: Identity, ch: Channel, w: World, r: Reading, b: Message)
    requires Skipped(cfg, me, w, b)
    ensures Skipped(cfg, me, Next(cfg, me, ch, w, CollectOnce(r)), b)
  {
    if Collectable(me, r) { AgentKeepsSkipped(cfg, me, w, Next(cfg, me, ch, w, CollectOnce(r)), b); }
  }

  lemma StepKeepsSkipped(cfg: Config, me: Identity, ch: Channel, w: World, e: Event, b: Message)
    requires Registered(cfg, me) && Skipped(cfg, me, w, b) && !Redelivers(e, b)
    ensures Skipped(cfg, me, Next(cfg, me, ch, w, e), b)
  {
    match e
    case CollectOnce(r) => CollectKeepsSkipped(cfg, me, ch, w, r, b);
    case SendHead(c) => if w.agent.pending != [] { SendKeepsSkipped(cfg, me, ch, w, c, b); }
    case Beat(_, _, _, _) => BeatKeepsSkipped(cfg, me, ch, w, e, b);
    case Redeliver(m, now) => if m in w.sent { ArrivalKeepsSkipped(cfg, me, w, Arrival(m, now), b); }
    case Foreign(m, via, c) => if !Authentic(me, m) { AttemptKeepsSkipped(cfg, me, via, w, m, c, b); }
  }

  lemma {:induction false} PlayKeepsSkipped(cfg: Config, me: Identity, ch: Channel, w: World, events: seq<Event>,
      b: Message)
    requires Registered(cfg, me) && Skipped(cfg, me, w, b)
    requires forall i :: 0 <= i < |events| ==> !Redelivers(events[i], b)
    ensures Skipped(cfg, me, Play(cfg, me, ch, w, events), b)
  {
    if events != [] {
      var n := |events| - 1;
      PlayKeepsSkipped(cfg, me, ch, w, events[..n], b);
      StepKeepsSkipped(cfg, me, ch, Play(cfg, me, ch, w, events[..n]), events[n], b);
    }
  }

  lemma {:induction false} OfAgentHas(log: seq<Arrival>, a: AgentId, m: Message)
    requires InLog(log, m) && m.envelope.agentId == a
    ensures exists i :: 0 <= i < |OfAgent(log, a)| && OfAgent(log, a)[i].message == m
  {
    var n := |log| - 1;
    assert log == log[..n] + [log[n]];
    OfAgentSnoc(log[..n], log[n], a);
    if log[n].message == m {
      var mine := OfAgent(log, a);
      assert mine[|mine| - 1].message == m;
    } else {
      var i :| 0 <= i < |log| && log[i].message == m;
      assert log[..n][i].message == m;
      OfAgentHas(log[..n], a, m);
      var j :| 0 <= j < |OfAgent(log[..n], a)| && OfAgent(log[..n], a)[j].message == m;
      assert OfAgent(log, a)[j].message == m;
    }
  }

  lemma LastIsHighest(mine: seq<Arrival>, i: nat)
    requires Consecutive(mine) && i < |mine|
    ensures LastSequenceIn(mine).Some? && mine[i].message.envelope.sequence <= LastSequenceIn(mine).value
  {
    ConsecutiveFromFirst(mine);
    var n := |mine| - 1;
    assert mine[n].message.envelope.sequence == mine[0].message.envelope.sequence + n;
    assert mine[i].message.envelope.sequence == mine[0].message.envelope.sequence + i;
  }

  lemma OrderOf(cfg: Config, arrivals: seq<Arrival>, a: AgentId)
    ensures OrderInv(Serve(cfg, arrivals), AcceptedLog(cfg, arrivals), a)
  {
    ReachableInv(cfg, arrivals);
  }

  /** Nothing of an agent took effect beyond the number the service has reached. */
  lemma LoggedIsReached(cfg: Config, arrivals: seq<Arrival>, m: Message)
    requires InLog(AcceptedLog(cfg, arrivals), m)
    ensures var last := Lookup(Serve(cfg, arrivals).lastSequence, m.envelope.agentId);
      last.Some? && m.envelope.sequence <= last.value
  {
    var mine := OfAgent(AcceptedLog(cfg, arrivals), m.envelope.agentId);
    OfAgentHas(AcceptedLog(cfg, arrivals), m.envelope.agentId, m);
    OrderOf(cfg, arrivals, m.envelope.agentId);
    var i :| 0 <= i < |mine| && mine[i].message == m;
    LastIsHighest(mine, i);
  }

  /** As long as the skipped heartbeat itself is not delivered late, no batch numbered after it ever takes
      effect or leaves the queue, whatever else happens. */
  lemma SkippedIsForEver(cfg: Config, me: Identity, ch: Channel, w: World, events: seq<Event>, b: Message)
    requires Registered(cfg, me) && Inv(cfg, me, w) && Skipped(cfg, me, w, b)
    requires forall i :: 0 <= i < |events| ==> !Redelivers(events[i], b)
    ensures var w' := Play(cfg, me, ch, w, events);
      forall m :: m in w'.collected && b.envelope.sequence < m.envelope.sequence ==>
        !InLog(Log(cfg, w'), m) && m in w'.agent.pending
  {
    var w' := Play(cfg, me, ch, w, events);
    PlayKeepsSkipped(cfg, me, ch, w, events, b);
    PlayKeeps(cfg, me, ch, w, events);
    forall m | m in w'.collected && b.envelope.sequence < m.envelope.sequence
      ensures !InLog(Log(cfg, w'), m) && m in w'.agent.pending
    {
      CollectedIsMine(me, w', m);
      if InLog(Log(cfg, w'), m) { LoggedIsReached(cfg, w'.arrivals, m); }
      if m in w'.dropped { DroppedIsLogged(cfg, me, w', m); }
    }
  }

  lemma CollectedIsMine(me: Identity, w: World, m: Message)
    requires QueueInv(me, w) && m in w.collected
    ensures m.envelope.agentId == me.agentId && (m in w.dropped || m in w.agent.pending)
  {
    var i :| 0 <= i < |w.collected| && w.collected[i] == m;
    assert HonestBatch(me, w.collected[i], w.agent.nextSequence);
  }

  lemma DroppedIsLogged(cfg: Config, me: Identity, w: World, m: Message)
    requires Inv(cfg, me, w) && m in w.dropped
    ensures InLog(Log(cfg, w), m)
  {
    BatchOfAgentInLog(Log(cfg, w), me.agentId, m);
  }

  // How a heartbeat comes to be skipped

  /** A heartbeat that is lost or refused is skipped, if the service has heard of the agent before and no
      earlier message carries a later number. */
  lemma LostBeatIsSkipped(cfg: Config, me: Identity, ch: Channel, w: World, e: Event)
    requires e.Beat?
    requires var beat := NewHeartbeat(me, w.agent, e.id, e.createdAt, e.encodedBytes);
      !Reaches(ch, w.link, beat, e.conditions)
        || Verdict(cfg, Serve(cfg, w.arrivals), beat, e.conditions.now) != Accepted
    requires var last := Lookup(Serve(cfg, w.arrivals).lastSequence, me.agentId);
      last.Some? && last.value < w.agent.nextSequence
    requires forall m :: m in w.sent ==> m.envelope.sequence < w.agent.nextSequence
    requires forall i :: 0 <= i < |w.agent.pending| ==> w.agent.pending[i].envelope.sequence < w.agent.nextSequence
    ensures Skipped(cfg, me, Next(cfg, me, ch, w, e), NewHeartbeat(me, w.agent, e.id, e.createdAt, e.encodedBytes))
  {
    ServeSnoc(cfg, w.arrivals, Arrival(NewHeartbeat(me, w.agent, e.id, e.createdAt, e.encodedBytes), e.conditions.now));
  }

  lemma FirstBeatCounts(cfg: Config, me: Identity, id: MessageId, at: Instant, n: nat, now: Instant)
    requires Registered(cfg, me) && id != "" && n <= cfg.maximumPayloadBytes && Abs(now - at) <= cfg.maximumSkew
    ensures var w := Next(cfg, me, Direct, START, Beat(id, at, n, Conditions(now, NoFault)));
      && w.agent == NEW_AGENT.(nextSequence := 1) && w.sent == {NewHeartbeat(me, NEW_AGENT, id, at, n)}
      && Lookup(Serve(cfg, w.arrivals).lastSequence, me.agentId) == Some(0)
  {
    var beat := NewHeartbeat(me, NEW_AGENT, id, at, n);
    FirstBeatAccepted(cfg, me, NEW_AGENT, id, at, n, now);
    LoneArrival(cfg, Arrival(beat, now));
    assert START.arrivals + [Arrival(beat, now)] == [Arrival(beat, now)];
  }

  /** Two heartbeats of a new agent, the second one lost: the second is skipped. */
  lemma SecondHeartbeatLost(cfg: Config, me: Identity, id: MessageId, id2: MessageId, at: Instant, n: nat, now: Instant)
    requires Registered(cfg, me) && id != "" && n <= cfg.maximumPayloadBytes && Abs(now - at) <= cfg.maximumSkew
    ensures var e1, e2 := Beat(id, at, n, Conditions(now, NoFault)), Beat(id2, at, n, Conditions(now, RequestFails));
      var b := NewHeartbeat(me, NEW_AGENT.(nextSequence := 1), id2, at, n);
      Skipped(cfg, me, Play(cfg, me, Direct, START, [e1, e2]), b)
  {
    var e1, e2 := Beat(id, at, n, Conditions(now, NoFault)), Beat(id2, at, n, Conditions(now, RequestFails));
    assert [e1, e2][..1] == [e1];
    PlayOne(cfg, me, Direct, START, e1);
    FirstBeatCounts(cfg, me, id, at, n, now);
    LostBeatIsSkipped(cfg, me, Direct, Next(cfg, me, Direct, START, e1), e2);
  }
}
