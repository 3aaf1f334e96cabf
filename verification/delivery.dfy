/** Delivery over every interleaving: one agent, its transport and the service, with lost requests,
    lost acknowledgments, delayed and duplicated requests, heartbeats, and arbitrary other traffic. */
module Delivery {
  import opened Common
  import opened CentralProtocol
  import opened ServerRuns
  import opened NodeAgents

  datatype Channel = Direct | Offline

  /** `arrivals` is everything that ever reached the service; `collected`, `dropped` and `sent` are
      the batches the agent queued, the batches it removed from its queue, and the messages it ever
      handed to its transport. */
  datatype World = World(
    agent: AgentState, link: Link, arrivals: seq<Arrival>,
    collected: seq<Message>, dropped: seq<Message>, sent: set<Message>)

  const START := World(NEW_AGENT, Link(map[], map[]), [], [], [], {})

  datatype Event =
    | CollectOnce(reading: Reading)
    | SendHead(conditions: Conditions)
    | Beat(id: MessageId, createdAt: Instant, encodedBytes: nat, conditions: Conditions)
    | Redeliver(message: Message, now: Instant)
    | Foreign(message: Message, via: Channel, conditions: Conditions)

  predicate Registered(cfg: Config, me: Identity) {
    && me.agentId in cfg.registrations && cfg.registrations[me.agentId] == Registration(me.nodeId, me.secret)
    && cfg.session == me.session
    && me.agentId != "" && me.nodeId != "" && me.session != ""
  }

  /** Signed with the agent's own key under its own name. */
  predicate Authentic(me: Identity, m: Message) {
    m.envelope.agentId == me.agentId && Verifies(m, me.secret)
  }

  function Attempt(cfg: Config, via: Channel, link: Link, s: ServerState, m: Message, c: Conditions): Sent {
    if via == Offline then SendOffline(cfg, link, s, m, c) else SendDirect(cfg, link, s, m, c)
  }

  /** Whether the attempt gets as far as the service. */
  predicate Reaches(via: Channel, link: Link, m: Message, c: Conditions) {
    && c.fault != RequestFails
    && (via == Offline ==>
          SafeId(IdOr(m, "")) && (IdOr(m, "") in link.requests ==> link.requests[IdOr(m, "")] == m))
  }

  function AfterAttempt(cfg: Config, via: Channel, w: World, m: Message, c: Conditions): World {
    w.(link := Attempt(cfg, via, w.link, Serve(cfg, w.arrivals), m, c).link,
       arrivals := if Reaches(via, w.link, m, c) then w.arrivals + [Arrival(m, c.now)] else w.arrivals)
  }

  predicate Acknowledged(cfg: Config, via: Channel, w: World, m: Message, c: Conditions) {
    var outcome := Attempt(cfg, via, w.link, Serve(cfg, w.arrivals), m, c).outcome;
    outcome.Ok? && outcome.value.accepted
  }

  /** One step; an event that cannot happen in `w` changes nothing. */
  function Next(cfg: Config, me: Identity, ch: Channel, w: World, e: Event): World {
    match e
    case CollectOnce(r) =>
      if !Collectable(me, r) then w
      else
        var batch := NewBatch(me, w.agent, r);
        w.(agent := Enqueue(w.agent, batch), collected := w.collected + [batch])
    case SendHead(c) =>
      if w.agent.pending == [] then w
      else
        var head := w.agent.pending[0];
        var w' := AfterAttempt(cfg, ch, w, head, c).(sent := w.sent + {head});
        if Acknowledged(cfg, ch, w, head, c) then w'.(agent := Pop(w.agent), dropped := w.dropped + [head]) else w'
    case Beat(id, createdAt, encodedBytes, c) =>
      var beat := NewHeartbeat(me, w.agent, id, createdAt, encodedBytes);
      AfterAttempt(cfg, ch, w, beat, c).(
        agent := w.agent.(nextSequence := w.agent.nextSequence + 1),
        sent := w.sent + {beat})
    case Redeliver(m, now) =>
      if m in w.sent then w.(arrivals := w.arrivals + [Arrival(m, now)]) else w
    case Foreign(m, via, c) =>
      if Authentic(me, m) then w else AfterAttempt(cfg, via, w, m, c)
  }

  function Play(cfg: Config, me: Identity, ch: Channel, w: World, events: seq<Event>): World {
    if events == [] then w
    else Next(cfg, me, ch, Play(cfg, me, ch, w, events[..|events| - 1]), events[|events| - 1])
  }

  function Log(cfg: Config, w: World): seq<Arrival> {
    AcceptedLog(cfg, w.arrivals)
  }

  /** The agent's batches that took effect at the service. */
  function Mine(cfg: Config, me: Identity, w: World): seq<Message> {
    Batches(OfAgent(Log(cfg, w), me.agentId))
  }

  // ----- the invariant

  /** The queue: what was collected is what was dropped followed by what is pending, numbered
      upwards and chained. */
  ghost predicate QueueInv(me: Identity, w: World) {
    && w.collected == w.dropped + w.agent.pending
    && SoundQueue(me, w.collected, w.agent.nextSequence)
    && w.agent.lastBatchId == LastBatchIn(w.dropped)
  }

  ghost predicate HonestBatch(me: Identity, m: Message, bound: int) {
    && IsBatch(m) && Authentic(me, m) && m.envelope.sequence < bound
    && m.envelope.nodeId == me.nodeId && m.envelope.session == me.session
    && m.envelope.protocolVersion == PROTOCOL_VERSION && ParseFailure(m.envelope).None?
  }

  /** Only batches that were dropped and the current head were ever handed to the transport. */
  ghost predicate SentInv(me: Identity, w: World) {
    forall m :: m in w.sent ==>
      && Authentic(me, m)
      && (IsBatch(m) ==> m in w.dropped || (w.agent.pending != [] && m == w.agent.pending[0]))
  }

  /** At most the head of the queue has taken effect beyond the batches already dropped. */
  ghost predicate DeliveredInv(cfg: Config, me: Identity, w: World) {
    || Mine(cfg, me, w) == w.dropped
    || (w.agent.pending != [] && Mine(cfg, me, w) == w.dropped + [w.agent.pending[0]])
  }

  /** A saved `accepted` acknowledgment belongs to a saved request that took effect. */
  ghost predicate LinkInv(cfg: Config, w: World) {
    forall id :: id in w.link.acks ==>
      id in w.link.requests && (w.link.acks[id].accepted ==> InLog(Log(cfg, w), w.link.requests[id]))
  }

  ghost predicate Inv(cfg: Config, me: Identity, w: World) {
    QueueInv(me, w) && SentInv(me, w) && DeliveredInv(cfg, me, w) && LinkInv(cfg, w)
  }

  lemma {:induction false} BatchOfAgentInLog(log: seq<Arrival>, a: AgentId, m: Message)
    ensures m in Batches(OfAgent(log, a)) <==> InLog(log, m) && m.envelope.agentId == a && IsBatch(m)
  {
    if log != [] {
      var init, x := log[..|log| - 1], log[|log| - 1];
      assert log == init + [x];
      BatchOfAgentInLog(init, a, m);
      OfAgentSnoc(init, x, a);
      BatchesSnoc(OfAgent(init, a), x);
      if InLog(init, m) {
        var i :| 0 <= i < |init| && init[i].message == m;
        assert log[i].message == m;
      }
      if x.message == m { assert log[|init|].message == m; }
    }
  }

  lemma ScreenedIsAuthentic(cfg: Config, me: Identity, m: Message)
    requires Registered(cfg, me) && Screen(cfg, m).None? && m.envelope.agentId == me.agentId
    ensures Authentic(me, m)
  {
  }

  /** How one more arrival changes the agent's accepted batches. */
  lemma MineSnoc(cfg: Config, me: Identity, w: World, x: Arrival)
    requires Registered(cfg, me)
    ensures var mine := Mine(cfg, me, w.(arrivals := w.arrivals + [x]));
      || mine == Mine(cfg, me, w)
      || (mine == Mine(cfg, me, w) + [x.message] && IsBatch(x.message) && Authentic(me, x.message)
        && x.message !in Mine(cfg, me, w))
  {
    var log, m := Log(cfg, w), x.message;
    ServeSnoc(cfg, w.arrivals, x);
    if TakesEffect(cfg, Serve(cfg, w.arrivals), x) {
      AcceptedFollows(cfg, Serve(cfg, w.arrivals), x);
      OfAgentSnoc(log, x, me.agentId);
      BatchesSnoc(OfAgent(log, me.agentId), x);
      if m.envelope.agentId == me.agentId && IsBatch(m) {
        ScreenedIsAuthentic(cfg, me, m);
        BatchOfAgentInLog(log, me.agentId, m);
        KnownExactly(cfg, w.arrivals, m, x.now);
      }
    }
  }

  /** Whatever arrives, the agent's accepted batches stay the dropped ones, with or without the head. */
  lemma ArrivalKeepsDelivered(cfg: Config, me: Identity, w: World, x: Arrival)
    requires Registered(cfg, me) && DeliveredInv(cfg, me, w)
    requires Authentic(me, x.message) && IsBatch(x.message) ==>
      x.message in w.dropped || (w.agent.pending != [] && x.message == w.agent.pending[0])
    ensures DeliveredInv(cfg, me, w.(arrivals := w.arrivals + [x]))
  {
    MineSnoc(cfg, me, w, x);
  }

  lemma LogKeeps(cfg: Config, arrivals: seq<Arrival>, x: Arrival, m: Message)
    requires InLog(AcceptedLog(cfg, arrivals), m)
    ensures InLog(AcceptedLog(cfg, arrivals + [x]), m)
  {
    ServeSnoc(cfg, arrivals, x);
    var i :| 0 <= i < |AcceptedLog(cfg, arrivals)| && AcceptedLog(cfg, arrivals)[i].message == m;
    assert AcceptedLog(cfg, arrivals + [x])[i].message == m;
  }

  lemma ArrivalKeepsLink(cfg: Config, w: World, x: Arrival)
    requires LinkInv(cfg, w)
    ensures LinkInv(cfg, w.(arrivals := w.arrivals + [x]))
  {
    forall id | id in w.link.acks && w.link.acks[id].accepted
      ensures InLog(AcceptedLog(cfg, w.arrivals + [x]), w.link.requests[id])
    {
      LogKeeps(cfg, w.arrivals, x, w.link.requests[id]);
    }
  }

  /** The files one attempt can change: the saved request of this message and its acknowledgment. */
  lemma AttemptFiles(cfg: Config, via: Channel, link: Link, s: ServerState, m: Message, c: Conditions)
    ensures var link' := Attempt(cfg, via, link, s, m, c).link;
      || link' == link
      || (via == Offline && Reaches(via, link, m, c) && link' == link.(requests := link.requests[IdOr(m, "") := m]))
      || (via == Offline && Reaches(via, link, m, c)
          && link' == Link(link.requests[IdOr(m, "") := m], link.acks[IdOr(m, "") := Reply(cfg, s, m, c.now)]))
  {
  }

  /** An accepted answer is the service's own or one saved for the same request. */
  lemma AcceptedAnswer(cfg: Config, via: Channel, link: Link, s: ServerState, m: Message, c: Conditions)
    ensures var outcome := Attempt(cfg, via, link, s, m, c).outcome;
      outcome.Ok? && outcome.value.accepted ==>
        && Reaches(via, link, m, c)
        && (Reply(cfg, s, m, c.now).accepted
            || (IdOr(m, "") in link.acks && link.acks[IdOr(m, "")].accepted
              && (IdOr(m, "") in link.requests ==> link.requests[IdOr(m, "")] == m)))
  {
  }

  lemma ReachedKeepsLink(cfg: Config, via: Channel, w: World, m: Message, c: Conditions)
    requires LinkInv(cfg, w) && Reaches(via, w.link, m, c)
    ensures LinkInv(cfg, AfterAttempt(cfg, via, w, m, c))
  {
    ArrivalKeepsLink(cfg, w, Arrival(m, c.now));
    AttemptFiles(cfg, via, w.link, Serve(cfg, w.arrivals), m, c);
    ReplyAccepts(cfg, Serve(cfg, w.arrivals), m, c.now);
    AcceptedIsLogged(cfg, w.arrivals, m, c.now);
  }

  lemma AcceptedAnswerIsTrue(cfg: Config, via: Channel, w: World, m: Message, c: Conditions)
    requires LinkInv(cfg, w) && Acknowledged(cfg, via, w, m, c)
    ensures InLog(Log(cfg, AfterAttempt(cfg, via, w, m, c)), m)
  {
    AcceptedAnswer(cfg, via, w.link, Serve(cfg, w.arrivals), m, c);
    ReplyAccepts(cfg, Serve(cfg, w.arrivals), m, c.now);
    AcceptedIsLogged(cfg, w.arrivals, m, c.now);
    if !Reply(cfg, Serve(cfg, w.arrivals), m, c.now).accepted { LogKeeps(cfg, w.arrivals, Arrival(m, c.now), m); }
  }

  /** An attempt keeps saved acknowledgments truthful, and an accepted answer is always true. */
  lemma AttemptKeepsLink(cfg: Config, via: Channel, w: World, m: Message, c: Conditions)
    requires LinkInv(cfg, w)
    ensures LinkInv(cfg, AfterAttempt(cfg, via, w, m, c))
    ensures Acknowledged(cfg, via, w, m, c) ==> InLog(Log(cfg, AfterAttempt(cfg, via, w, m, c)), m)
  {
    if Reaches(via, w.link, m, c) {
      ReachedKeepsLink(cfg, via, w, m, c);
    } else {
      AttemptFiles(cfg, via, w.link, Serve(cfg, w.arrivals), m, c);
    }
    if Acknowledged(cfg, via, w, m, c) { AcceptedAnswerIsTrue(cfg, via, w, m, c); }
  }

  lemma AttemptKeepsDelivered(cfg: Config, me: Identity, via: Channel, w: World, m: Message, c: Conditions)
    requires Registered(cfg, me) && DeliveredInv(cfg, me, w)
    requires Authentic(me, m) && IsBatch(m) ==>
      m in w.dropped || (w.agent.pending != [] && m == w.agent.pending[0])
    ensures DeliveredInv(cfg, me, AfterAttempt(cfg, via, w, m, c))
  {
    if Reaches(via, w.link, m, c) { ArrivalKeepsDelivered(cfg, me, w, Arrival(m, c.now)); }
  }

  lemma LastCollected(me: Identity, w: World)
    requires QueueInv(me, w) && w.collected != []
    ensures var last := w.collected[|w.collected| - 1];
      && (w.agent.pending != [] ==> last == w.agent.pending[|w.agent.pending| - 1])
      && (w.agent.pending == [] ==> w.dropped != [] && last == w.dropped[|w.dropped| - 1])
  {
  }

  lemma NewBatchIsHonest(me: Identity, w: World, r: Reading)
    requires QueueInv(me, w) && Collectable(me, r)
    ensures var batch := NewBatch(me, w.agent, r);
      && HonestBatch(me, batch, w.agent.nextSequence + 1)
      && batch.envelope.sequence == w.agent.nextSequence
      && (w.collected != [] ==> ParentOf(batch) == Some(BatchIdOf(w.collected[|w.collected| - 1])))
  {
    if w.collected != [] { LastCollected(me, w); }
  }

  /** The collected batches: honest, numbered upwards, each naming its predecessor. */
  ghost predicate SoundQueue(me: Identity, collected: seq<Message>, bound: int) {
    && (forall i :: 0 <= i < |collected| ==> HonestBatch(me, collected[i], bound))
    && (forall i, j :: 0 <= i < j < |collected| ==>
          collected[i].envelope.sequence < collected[j].envelope.sequence)
    && (forall i :: 0 < i < |collected| ==> ParentOf(collected[i]) == Some(BatchIdOf(collected[i - 1])))
  }

  lemma SoundQueueSnoc(me: Identity, collected: seq<Message>, bound: int, batch: Message)
    requires SoundQueue(me, collected, bound) && HonestBatch(me, batch, bound + 1)
    requires batch.envelope.sequence == bound
    requires collected != [] ==> ParentOf(batch) == Some(BatchIdOf(collected[|collected| - 1]))
    ensures SoundQueue(me, collected + [batch], bound + 1)
  {
    forall i | 0 <= i < |collected|
      ensures HonestBatch(me, collected[i], bound + 1) && collected[i].envelope.sequence < bound
    {
      assert HonestBatch(me, collected[i], bound);
    }
  }

  lemma CollectKeepsQueue(me: Identity, w: World, batch: Message)
    requires QueueInv(me, w) && HonestBatch(me, batch, w.agent.nextSequence + 1)
    requires batch.envelope.sequence == w.agent.nextSequence
    requires w.collected != [] ==> ParentOf(batch) == Some(BatchIdOf(w.collected[|w.collected| - 1]))
    ensures QueueInv(me, w.(agent := Enqueue(w.agent, batch), collected := w.collected + [batch]))
  {
    SoundQueueSnoc(me, w.collected, w.agent.nextSequence, batch);
    assert w.collected + [batch] == w.dropped + (w.agent.pending + [batch]);
  }

  lemma CollectKeeps(cfg: Config, me: Identity, ch: Channel, w: World, r: Reading)
    requires Inv(cfg, me, w)
    ensures Inv(cfg, me, Next(cfg, me, ch, w, CollectOnce(r)))
  {
    if Collectable(me, r) {
      NewBatchIsHonest(me, w, r);
      CollectKeepsQueue(me, w, NewBatch(me, w.agent, r));
    }
  }

  /** Handing the head to the transport, whatever comes of it. */
  lemma HeadSentKeeps(cfg: Config, me: Identity, ch: Channel, w: World, c: Conditions)
    requires Registered(cfg, me) && Inv(cfg, me, w) && w.agent.pending != []
    ensures var head := w.agent.pending[0];
      var w' := AfterAttempt(cfg, ch, w, head, c).(sent := w.sent + {head});
      Inv(cfg, me, w') && (Acknowledged(cfg, ch, w, head, c) ==> InLog(Log(cfg, w'), head))
  {
    var head := w.agent.pending[0];
    AttemptKeepsLink(cfg, ch, w, head, c);
    AttemptKeepsDelivered(cfg, me, ch, w, head, c);
    HeadIsNext(me, w);
    var w' := AfterAttempt(cfg, ch, w, head, c).(sent := w.sent + {head});
    assert Log(cfg, w') == Log(cfg, AfterAttempt(cfg, ch, w, head, c));
  }

  lemma SendHeadKeeps(cfg: Config, me: Identity, ch: Channel, w: World, c: Conditions)
    requires Registered(cfg, me) && Inv(cfg, me, w)
    ensures Inv(cfg, me, Next(cfg, me, ch, w, SendHead(c)))
  {
    if w.agent.pending != [] {
      var head := w.agent.pending[0];
      HeadSentKeeps(cfg, me, ch, w, c);
      if Acknowledged(cfg, ch, w, head, c) {
        PopKeeps(cfg, me, AfterAttempt(cfg, ch, w, head, c).(sent := w.sent + {head}));
      }
    }
  }

  lemma PopKeepsQueue(me: Identity, w: World)
    requires QueueInv(me, w) && w.agent.pending != []
    ensures QueueInv(me, w.(agent := Pop(w.agent), dropped := w.dropped + [w.agent.pending[0]]))
  {
    assert w.collected == (w.dropped + [w.agent.pending[0]]) + w.agent.pending[1..];
  }

  lemma LoggedHeadIsDelivered(cfg: Config, me: Identity, w: World)
    requires Inv(cfg, me, w) && w.agent.pending != [] && InLog(Log(cfg, w), w.agent.pending[0])
    ensures Mine(cfg, me, w) == w.dropped + [w.agent.pending[0]]
  {
    HeadIsNext(me, w);
    BatchOfAgentInLog(Log(cfg, w), me.agentId, w.agent.pending[0]);
  }

  /** A head that took effect can leave the queue. */
  lemma PopKeeps(cfg: Config, me: Identity, w: World)
    requires Inv(cfg, me, w) && w.agent.pending != [] && InLog(Log(cfg, w), w.agent.pending[0])
    ensures Inv(cfg, me, w.(agent := Pop(w.agent), dropped := w.dropped + [w.agent.pending[0]]))
  {
    LoggedHeadIsDelivered(cfg, me, w);
    PopKeepsQueue(me, w);
  }

  lemma HeadIsNext(me: Identity, w: World)
    requires QueueInv(me, w) && w.agent.pending != []
    ensures HonestBatch(me, w.agent.pending[0], w.agent.nextSequence)
    ensures w.agent.pending[0] !in w.dropped
    ensures w.dropped != [] ==> ParentOf(w.agent.pending[0]) == LastBatchIn(w.dropped)
  {
    assert w.collected[|w.dropped|] == w.agent.pending[0];
    assert forall i :: 0 <= i < |w.dropped| ==> w.collected[i] == w.dropped[i];
  }

  lemma BeatKeeps(cfg: Config, me: Identity, ch: Channel, w: World, e: Event)
    requires Registered(cfg, me) && Inv(cfg, me, w) && e.Beat?
    ensures Inv(cfg, me, Next(cfg, me, ch, w, e))
  {
    var beat := NewHeartbeat(me, w.agent, e.id, e.createdAt, e.encodedBytes);
    AttemptKeepsLink(cfg, ch, w, beat, e.conditions);
    AttemptKeepsDelivered(cfg, me, ch, w, beat, e.conditions);
  }

  lemma StepKeeps(cfg: Config, me: Identity, ch: Channel, w: World, e: Event)
    requires Registered(cfg, me) && Inv(cfg, me, w)
    ensures Inv(cfg, me, Next(cfg, me, ch, w, e))
  {
    match e
    case CollectOnce(r) => CollectKeeps(cfg, me, ch, w, r);
    case SendHead(c) => SendHeadKeeps(cfg, me, ch, w, c);
    case Beat(_, _, _, _) => BeatKeeps(cfg, me, ch, w, e);
    case Redeliver(m, now) =>
      if m in w.sent {
        ArrivalKeepsDelivered(cfg, me, w, Arrival(m, now));
        ArrivalKeepsLink(cfg, w, Arrival(m, now));
      }
    case Foreign(m, via, c) =>
      if !Authentic(me, m) {
        AttemptKeepsLink(cfg, via, w, m, c);
        AttemptKeepsDelivered(cfg, me, via, w, m, c);
      }
  }

  lemma {:induction false} PlayKeeps(cfg: Config, me: Identity, ch: Channel, w: World, events: seq<Event>)
    requires Registered(cfg, me) && Inv(cfg, me, w)
    ensures Inv(cfg, me, Play(cfg, me, ch, w, events))
  {
    if events != [] {
      PlayKeeps(cfg, me, ch, w, events[..|events| - 1]);
      StepKeeps(cfg, me, ch, Play(cfg, me, ch, w, events[..|events| - 1]), events[|events| - 1]);
    }
  }

  lemma StartKeeps(cfg: Config, me: Identity)
    ensures Inv(cfg, me, START)
  {
  }

  lemma PlayFromStart(cfg: Config, me: Identity, ch: Channel, events: seq<Event>)
    requires Registered(cfg, me)
    ensures Inv(cfg, me, Play(cfg, me, ch, START, events))
  {
    StartKeeps(cfg, me);
    PlayKeeps(cfg, me, ch, START, events);
  }

  // ----- safety

  ghost predicate NoIdTwice(batches: seq<Message>) {
    forall i, j :: 0 <= i < j < |batches| ==> BatchIdOf(batches[i]) != BatchIdOf(batches[j])
  }

  /** Exactly once and in order: the batches of the agent that took effect are a prefix of those it
      collected, no ID twice; the batches it dropped are a prefix of those, at most one behind. */
  lemma ExactlyOnceInOrder(cfg: Config, me: Identity, ch: Channel, events: seq<Event>)
    requires Registered(cfg, me)
    ensures var w := Play(cfg, me, ch, START, events);
      && Mine(cfg, me, w) <= w.collected
      && w.dropped <= Mine(cfg, me, w)
      && |Mine(cfg, me, w)| <= |w.dropped| + 1
      && w.collected == w.dropped + w.agent.pending
      && NoIdTwice(Mine(cfg, me, w))
  {
    PlayFromStart(cfg, me, ch, events);
    var w := Play(cfg, me, ch, START, events);
    InOrder(cfg, me, w);
  }

  lemma InOrder(cfg: Config, me: Identity, w: World)
    requires Inv(cfg, me, w)
    ensures Mine(cfg, me, w) <= w.collected && w.dropped <= Mine(cfg, me, w) && |Mine(cfg, me, w)| <= |w.dropped| + 1
    ensures NoIdTwice(Mine(cfg, me, w))
  {
    assert IdentityInv(cfg, Serve(cfg, w.arrivals), Log(cfg, w)) by { ReachableInv(cfg, w.arrivals); }
    DistinctBatches(cfg, Log(cfg, w), me.agentId);
  }

  /** The batch IDs of one agent's part of a log are as distinct as the log's message IDs. */
  lemma {:induction false} DistinctBatches(cfg: Config, log: seq<Arrival>, a: AgentId)
    requires forall i :: 0 <= i < |log| ==> Screen(cfg, log[i].message).None?
    requires forall i, j :: 0 <= i < j < |log| ==> IdOf(log[i].message) != IdOf(log[j].message)
    ensures NoIdTwice(Batches(OfAgent(log, a)))
  {
    if log != [] {
      var init, x := log[..|log| - 1], log[|log| - 1];
      assert log == init + [x];
      DistinctBatches(cfg, init, a);
      OfAgentSnoc(init, x, a);
      BatchesSnoc(OfAgent(init, a), x);
      var before := Batches(OfAgent(init, a));
      forall i | 0 <= i < |before| && IsBatch(x.message)
        ensures BatchIdOf(before[i]) != BatchIdOf(x.message)
      {
        BatchOfAgentInLog(init, a, before[i]);
        var k :| 0 <= k < |init| && init[k].message == before[i];
        assert log[k].message == before[i];
        assert Screen(cfg, log[k].message).None? && Screen(cfg, log[|init|].message).None?;
      }
    }
  }

  // ----- what can still refuse an honest batch

  lemma HonestScreen(cfg: Config, me: Identity, m: Message, bound: int)
    requires Registered(cfg, me) && HonestBatch(me, m, bound)
    ensures Screen(cfg, m) == if m.envelope.encodedBytes > cfg.maximumPayloadBytes then Some(PayloadTooLarge) else None
  {
  }

  lemma ChainHolds(cfg: Config, me: Identity, w: World)
    requires Inv(cfg, me, w) && w.agent.pending != [] && !InLog(Log(cfg, w), w.agent.pending[0])
    ensures var s := Serve(cfg, w.arrivals);
      me.agentId in s.lastBatch ==> ParentOf(w.agent.pending[0]) == Some(s.lastBatch[me.agentId])
  {
    var s, head := Serve(cfg, w.arrivals), w.agent.pending[0];
    HeadIsNext(me, w);
    assert OrderInv(s, Log(cfg, w), me.agentId) by { ReachableInv(cfg, w.arrivals); }
    BatchOfAgentInLog(Log(cfg, w), me.agentId, head);
    assert Mine(cfg, me, w) == w.dropped;
  }

  ghost predicate Timely(cfg: Config, m: Message, now: Instant)
    requires IsBatch(m) && m.envelope.createdAt.Some?
  {
    Abs(now - m.envelope.createdAt.value) <= cfg.maximumSkew
      && MaxSampleSkew(m.envelope.body.samples, now) <= cfg.maximumSkew
  }

  ghost predicate InTurn(s: ServerState, m: Message) {
    m.envelope.agentId in s.lastSequence ==> m.envelope.sequence == s.lastSequence[m.envelope.agentId] + 1
  }

  /** The head is a batch, and the service's answer to it depends on nothing but its size, its ID, its
      turn and its age. */
  ghost predicate HeadDecided(cfg: Config, w: World, now: Instant)
    requires w.agent.pending != []
  {
    var s, head := Serve(cfg, w.arrivals), w.agent.pending[0];
    && IsBatch(head)
    && head.envelope.createdAt.Some?
    && (Reply(cfg, s, head, now).accepted <==>
        && head.envelope.encodedBytes <= cfg.maximumPayloadBytes
        && (InLog(Log(cfg, w), head) || (IdOf(head) !in s.seenIds && InTurn(s, head) && Timely(cfg, head, now))))
  }

  /** For a screened batch in chain, the verdict depends on its ID, its turn and its age. */
  lemma ScreenedVerdict(cfg: Config, s: ServerState, m: Message, now: Instant)
    requires Screen(cfg, m).None? && IsBatch(m) && m.envelope.createdAt.Some? && IdOf(m) !in s.seenIds
    requires m.envelope.agentId in s.lastBatch ==> ParentOf(m) == Some(s.lastBatch[m.envelope.agentId])
    ensures Verdict(cfg, s, m, now) == Accepted <==> InTurn(s, m) && Timely(cfg, m, now)
  {
  }

  /** A message whose ID is known has no other verdict than that it is known, or that it conflicts. */
  lemma SeenVerdict(cfg: Config, s: ServerState, m: Message, now: Instant)
    requires Screen(cfg, m).Some? || IdOf(m) in s.seenIds
    ensures Verdict(cfg, s, m, now) != Accepted
  {
    ScreenNeverAccepts(cfg, m);
  }

  lemma HeadVerdict(cfg: Config, me: Identity, w: World, now: Instant)
    requires Registered(cfg, me) && Inv(cfg, me, w) && w.agent.pending != []
    ensures HonestBatch(me, w.agent.pending[0], w.agent.nextSequence) && HeadDecided(cfg, w, now)
  {
    var s, head := Serve(cfg, w.arrivals), w.agent.pending[0];
    HeadIsNext(me, w);
    KnownExactly(cfg, w.arrivals, head, now);
    KnownVerdict(cfg, s, head, now);
    ReplyAccepts(cfg, s, head, now);
    HonestScreen(cfg, me, head, w.agent.nextSequence);
    if Screen(cfg, head).Some? || IdOf(head) in s.seenIds {
      SeenVerdict(cfg, s, head, now);
    } else {
      ChainHolds(cfg, me, w);
      ScreenedVerdict(cfg, s, head, now);
    }
  }

  /** The head of the queue is only ever refused for its size, an ID taken by different content, its
      sequence number or its age; never for identity, signature, parsing, privacy or chain. */
  lemma HeadAcceptedExactly(cfg: Config, me: Identity, ch: Channel, events: seq<Event>, now: Instant)
    requires Registered(cfg, me)
    requires Play(cfg, me, ch, START, events).agent.pending != []
    ensures HeadDecided(cfg, Play(cfg, me, ch, START, events), now)
  {
    PlayFromStart(cfg, me, ch, events);
    HeadVerdict(cfg, me, Play(cfg, me, ch, START, events), now);
  }
}
