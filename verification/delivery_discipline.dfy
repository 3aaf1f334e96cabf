/** Progress for an agent that sends heartbeats only on an empty queue and gets them through. */
module DeliveryDiscipline {
  import opened CentralProtocol
  import opened ServerRuns
  import opened NodeAgents
  import opened Delivery
  import opened DeliveryProgress

  /** Every heartbeat is sent on an empty queue, and its attempt gets through in good time. */
  ghost predicate Disciplined(cfg: Config, me: Identity, ch: Channel, events: seq<Event>) {
    events != [] ==>
      && Disciplined(cfg, me, ch, events[..|events| - 1])
      && BeatInPlace(cfg, me, ch, Play(cfg, me, ch, START, events[..|events| - 1]), events[|events| - 1])
  }

  ghost predicate BeatInPlace(cfg: Config, me: Identity, ch: Channel, w: World, e: Event) {
    e.Beat? ==> w.agent.pending == [] && BeatGetsThrough(cfg, me, ch, w, e)
  }

  /** What the sender has to see to: an unused id, the size limit and the age. */
  ghost predicate BeatFits(cfg: Config, w: World, e: Event)
    requires e.Beat?
  {
    && e.id != "" && e.id !in Serve(cfg, w.arrivals).seenIds
    && e.encodedBytes <= cfg.maximumPayloadBytes
    && Abs(e.conditions.now - e.createdAt) <= cfg.maximumSkew
  }

  ghost predicate BeatGetsThrough(cfg: Config, me: Identity, ch: Channel, w: World, e: Event)
    requires e.Beat?
  {
    && BeatFits(cfg, w, e)
    && Reaches(ch, w.link, NewHeartbeat(me, w.agent, e.id, e.createdAt, e.encodedBytes), e.conditions)
  }

  /** The sequence number the agent's next effective message carries. */
  ghost function Upcoming(cfg: Config, w: World): int {
    if w.agent.pending == [] then w.agent.nextSequence
    else if InLog(Log(cfg, w), w.agent.pending[0]) then w.agent.pending[0].envelope.sequence + 1
    else w.agent.pending[0].envelope.sequence
  }

  /** The service waits for exactly that number, and no heartbeat is under way. */
  ghost predicate InStep(cfg: Config, me: Identity, w: World) {
    && (forall i :: 0 <= i < |w.agent.pending| ==>
          w.agent.pending[i].envelope.sequence == w.agent.nextSequence - |w.agent.pending| + i)
    && (me.agentId in Serve(cfg, w.arrivals).lastSequence ==>
          Serve(cfg, w.arrivals).lastSequence[me.agentId] + 1 == Upcoming(cfg, w))
    && (forall m :: m in w.sent && !IsBatch(m) ==> InLog(Log(cfg, w), m))
  }

  lemma BeatsStayLogged(cfg: Config, w: World, x: Arrival)
    requires forall m :: m in w.sent && !IsBatch(m) ==> InLog(Log(cfg, w), m)
    ensures forall m :: m in w.sent && !IsBatch(m) ==> InLog(Log(cfg, w.(arrivals := w.arrivals + [x])), m)
  {
    forall m | m in w.sent && !IsBatch(m)
      ensures InLog(Log(cfg, w.(arrivals := w.arrivals + [x])), m)
    {
      LogKeeps(cfg, w.arrivals, x, m);
    }
  }

  /** The service's count and the agent's next effective number go on together. */
  lemma EffectCounts(cfg: Config, me: Identity, w: World, x: Arrival)
    requires Registered(cfg, me) && QueueInv(me, w) && InStep(cfg, me, w)
    requires TakesEffect(cfg, Serve(cfg, w.arrivals), x) && !InLog(Log(cfg, w), x.message)
    requires x.message.envelope.agentId == me.agentId ==> w.agent.pending != [] && x.message == w.agent.pending[0]
    ensures var w' := w.(arrivals := w.arrivals + [x]);
      var last := Serve(cfg, w'.arrivals).lastSequence;
      me.agentId in last ==> last[me.agentId] + 1 == Upcoming(cfg, w')
  {
    ServeSnoc(cfg, w.arrivals, x);
    if w.agent.pending != [] {
      HeadIsNext(me, w);
      HeadLogged(cfg, me, w, x);
    }
  }

  lemma EffectKeepsInStep(cfg: Config, me: Identity, w: World, x: Arrival)
    requires Registered(cfg, me) && Inv(cfg, me, w) && InStep(cfg, me, w)
    requires Authentic(me, x.message) ==>
      x.message in w.sent || (w.agent.pending != [] && x.message == w.agent.pending[0])
    requires TakesEffect(cfg, Serve(cfg, w.arrivals), x)
    ensures InStep(cfg, me, w.(arrivals := w.arrivals + [x]))
  {
    BeatsStayLogged(cfg, w, x);
    EffectIsForeignOrHead(cfg, me, w, x);
    EffectCounts(cfg, me, w, x);
  }

  lemma ArrivalKeepsInStep(cfg: Config, me: Identity, w: World, x: Arrival)
    requires Registered(cfg, me) && Inv(cfg, me, w) && InStep(cfg, me, w)
    requires Authentic(me, x.message) ==>
      x.message in w.sent || (w.agent.pending != [] && x.message == w.agent.pending[0])
    ensures InStep(cfg, me, w.(arrivals := w.arrivals + [x]))
  {
    if TakesEffect(cfg, Serve(cfg, w.arrivals), x) {
      EffectKeepsInStep(cfg, me, w, x);
    } else {
      ServeSnoc(cfg, w.arrivals, x);
    }
  }

  /** What takes effect is foreign, or the head for the first time. */
  lemma EffectIsForeignOrHead(cfg: Config, me: Identity, w: World, x: Arrival)
    requires Registered(cfg, me) && Inv(cfg, me, w)
    requires forall m :: m in w.sent && !IsBatch(m) ==> InLog(Log(cfg, w), m)
    requires Authentic(me, x.message) ==>
      x.message in w.sent || (w.agent.pending != [] && x.message == w.agent.pending[0])
    requires TakesEffect(cfg, Serve(cfg, w.arrivals), x)
    ensures !InLog(Log(cfg, w), x.message)
    ensures x.message.envelope.agentId == me.agentId ==> w.agent.pending != [] && x.message == w.agent.pending[0]
  {
    ScreenNeverAccepts(cfg, x.message);
    KnownExactly(cfg, w.arrivals, x.message, x.now);
    BatchOfAgentInLog(Log(cfg, w), me.agentId, x.message);
  }

  lemma HeadLogged(cfg: Config, me: Identity, w: World, x: Arrival)
    requires w.agent.pending != [] && TakesEffect(cfg, Serve(cfg, w.arrivals), x)
    ensures var head := w.agent.pending[0];
      InLog(AcceptedLog(cfg, w.arrivals + [x]), head) <==> InLog(Log(cfg, w), head) || x.message == head
  {
    ServeSnoc(cfg, w.arrivals, x);
    var log, log', head := Log(cfg, w), AcceptedLog(cfg, w.arrivals + [x]), w.agent.pending[0];
    assert log' == log + [x];
    assert log'[|log|] == x;
    assert forall i :: 0 <= i < |log| ==> log'[i] == log[i];
  }

  lemma AttemptKeepsInStep(cfg: Config, me: Identity, via: Channel, w: World, m: Message, c: Conditions)
    requires Registered(cfg, me) && Inv(cfg, me, w) && InStep(cfg, me, w)
    requires Authentic(me, m) ==> m in w.sent || (w.agent.pending != [] && m == w.agent.pending[0])
    ensures InStep(cfg, me, AfterAttempt(cfg, via, w, m, c))
  {
    if Reaches(via, w.link, m, c) { ArrivalKeepsInStep(cfg, me, w, Arrival(m, c.now)); }
  }

  /** Handing the head to the transport, whatever comes of it. */
  lemma HeadSentKeepsInStep(cfg: Config, me: Identity, ch: Channel, w: World, c: Conditions)
    requires Registered(cfg, me) && Inv(cfg, me, w) && InStep(cfg, me, w) && w.agent.pending != []
    ensures InStep(cfg, me, AfterAttempt(cfg, ch, w, w.agent.pending[0], c).(sent := w.sent + {w.agent.pending[0]}))
  {
    var head := w.agent.pending[0];
    HeadIsNext(me, w);
    AttemptKeepsInStep(cfg, me, ch, w, head, c);
    SentDoesNotMatter(cfg, me, AfterAttempt(cfg, ch, w, head, c), w.sent + {head});
  }

  lemma SendHeadKeepsInStep(cfg: Config, me: Identity, ch: Channel, w: World, c: Conditions)
    requires Registered(cfg, me) && Inv(cfg, me, w) && InStep(cfg, me, w) && w.agent.pending != []
    ensures InStep(cfg, me, Next(cfg, me, ch, w, SendHead(c)))
  {
    HeadSentKeepsInStep(cfg, me, ch, w, c);
    if Acknowledged(cfg, ch, w, w.agent.pending[0], c) {
      HeadSentKeeps(cfg, me, ch, w, c);
      PopKeepsInStep(cfg, me, AfterAttempt(cfg, ch, w, w.agent.pending[0], c).(sent := w.sent + {w.agent.pending[0]}));
    }
  }

  ghost function Popped(w: World): World
    requires w.agent.pending != []
  {
    w.(agent := Pop(w.agent), dropped := w.dropped + [w.agent.pending[0]])
  }

  lemma SentDoesNotMatter(cfg: Config, me: Identity, w: World, sent: set<Message>)
    requires InStep(cfg, me, w)
    requires forall m :: m in sent && !IsBatch(m) ==> m in w.sent || InLog(Log(cfg, w), m)
    ensures InStep(cfg, me, w.(sent := sent))
  {
    assert Log(cfg, w.(sent := sent)) == Log(cfg, w);
  }

  lemma PopKeepsInStep(cfg: Config, me: Identity, w: World)
    requires Inv(cfg, me, w) && InStep(cfg, me, w)
    requires w.agent.pending != [] && InLog(Log(cfg, w), w.agent.pending[0])
    ensures InStep(cfg, me, Popped(w))
  {
    LoggedHeadIsDelivered(cfg, me, w);
    PopKeeps(cfg, me, w);
    var w' := Popped(w);
    assert Log(cfg, w') == Log(cfg, w);
    if w'.agent.pending != [] { NextNotLogged(cfg, me, w'); }
  }

  /** A head whose predecessors are all that took effect has not taken effect. */
  lemma NextNotLogged(cfg: Config, me: Identity, w: World)
    requires Inv(cfg, me, w) && w.agent.pending != [] && Mine(cfg, me, w) == w.dropped
    ensures !InLog(Log(cfg, w), w.agent.pending[0])
  {
    HeadIsNext(me, w);
    BatchOfAgentInLog(Log(cfg, w), me.agentId, w.agent.pending[0]);
  }

  lemma CollectKeepsInStep(cfg: Config, me: Identity, ch: Channel, w: World, r: Reading)
    requires Inv(cfg, me, w) && InStep(cfg, me, w)
    ensures InStep(cfg, me, Next(cfg, me, ch, w, CollectOnce(r)))
  {
    if Collectable(me, r) {
      var w' := Next(cfg, me, ch, w, CollectOnce(r));
      assert Log(cfg, w') == Log(cfg, w);
      if w.agent.pending == [] {
        CollectKeeps(cfg, me, ch, w, r);
        assert Mine(cfg, me, w') == w'.dropped;
        NextNotLogged(cfg, me, w');
      }
    }
  }

  lemma HonestBeatScreen(cfg: Config, me: Identity, st: AgentState, e: Event)
    requires Registered(cfg, me) && e.Beat?
    ensures Screen(cfg, NewHeartbeat(me, st, e.id, e.createdAt, e.encodedBytes)).None?
            <==> e.id != "" && e.encodedBytes <= cfg.maximumPayloadBytes
  {
  }

  /** A heartbeat on an empty queue carries the number the service waits for, so it is accepted exactly if
      it fits. */
  lemma BeatIsAccepted(cfg: Config, me: Identity, w: World, e: Event)
    requires Registered(cfg, me) && InStep(cfg, me, w) && e.Beat? && w.agent.pending == []
    ensures var beat := NewHeartbeat(me, w.agent, e.id, e.createdAt, e.encodedBytes);
      Verdict(cfg, Serve(cfg, w.arrivals), beat, e.conditions.now) == Accepted <==> BeatFits(cfg, w, e)
  {
    var beat := NewHeartbeat(me, w.agent, e.id, e.createdAt, e.encodedBytes);
    HonestBeatScreen(cfg, me, w.agent, e);
    ScreenNeverAccepts(cfg, beat);
    assert Upcoming(cfg, w) == w.agent.nextSequence;
  }

  lemma BeatIsLogged(cfg: Config, w: World, beat: Message, now: Instant)
    requires Verdict(cfg, Serve(cfg, w.arrivals), beat, now) == Accepted
    ensures Serve(cfg, w.arrivals + [Arrival(beat, now)]) == Commit(Serve(cfg, w.arrivals), beat, now)
    ensures InLog(AcceptedLog(cfg, w.arrivals + [Arrival(beat, now)]), beat)
  {
    ServeSnoc(cfg, w.arrivals, Arrival(beat, now));
    AcceptedIsLogged(cfg, w.arrivals, beat, now);
  }

  lemma BeatMoves(cfg: Config, me: Identity, ch: Channel, w: World, e: Event)
    requires e.Beat? && BeatGetsThrough(cfg, me, ch, w, e)
    ensures var beat := NewHeartbeat(me, w.agent, e.id, e.createdAt, e.encodedBytes);
      var w' := Next(cfg, me, ch, w, e);
      && w'.arrivals == w.arrivals + [Arrival(beat, e.conditions.now)] && w'.sent == w.sent + {beat}
      && w'.agent == w.agent.(nextSequence := w.agent.nextSequence + 1)
  {
  }

  /** An accepted heartbeat moves agent and service on together. */
  lemma AcceptedBeatInStep(cfg: Config, me: Identity, w: World, w': World, beat: Message, now: Instant)
    requires InStep(cfg, me, w) && w.agent.pending == []
    requires Verdict(cfg, Serve(cfg, w.arrivals), beat, now) == Accepted
    requires beat.envelope.agentId == me.agentId && beat.envelope.sequence == w.agent.nextSequence
    requires w'.arrivals == w.arrivals + [Arrival(beat, now)] && w'.sent == w.sent + {beat}
    requires w'.agent == w.agent.(nextSequence := w.agent.nextSequence + 1)
    ensures InStep(cfg, me, w')
  {
    BeatIsLogged(cfg, w, beat, now);
    BeatsStayLogged(cfg, w, Arrival(beat, now));
    assert Upcoming(cfg, w') == w.agent.nextSequence + 1;
  }

  lemma BeatKeepsInStep(cfg: Config, me: Identity, ch: Channel, w: World, e: Event)
    requires Registered(cfg, me) && InStep(cfg, me, w)
    requires e.Beat? && w.agent.pending == [] && BeatGetsThrough(cfg, me, ch, w, e)
    ensures InStep(cfg, me, Next(cfg, me, ch, w, e))
  {
    var beat := NewHeartbeat(me, w.agent, e.id, e.createdAt, e.encodedBytes);
    BeatIsAccepted(cfg, me, w, e);
    BeatMoves(cfg, me, ch, w, e);
    AcceptedBeatInStep(cfg, me, w, Next(cfg, me, ch, w, e), beat, e.conditions.now);
  }

  lemma {:induction false} DisciplinedInStep(cfg: Config, me: Identity, ch: Channel, events: seq<Event>)
    requires Registered(cfg, me) && Disciplined(cfg, me, ch, events)
    ensures Inv(cfg, me, Play(cfg, me, ch, START, events)) && InStep(cfg, me, Play(cfg, me, ch, START, events))
  {
    PlayFromStart(cfg, me, ch, events);
    if events != [] {
      var init, e := events[..|events| - 1], events[|events| - 1];
      DisciplinedInStep(cfg, me, ch, init);
      StepKeepsInStep(cfg, me, ch, Play(cfg, me, ch, START, init), e);
    }
  }

  lemma StepKeepsInStep(cfg: Config, me: Identity, ch: Channel, w: World, e: Event)
    requires Registered(cfg, me) && Inv(cfg, me, w) && InStep(cfg, me, w)
    requires BeatInPlace(cfg, me, ch, w, e)
    ensures InStep(cfg, me, Next(cfg, me, ch, w, e))
  {
    match e
    case CollectOnce(r) => CollectKeepsInStep(cfg, me, ch, w, r);
    case SendHead(c) => if w.agent.pending != [] { SendHeadKeepsInStep(cfg, me, ch, w, c); }
    case Beat(_, _, _, _) => BeatKeepsInStep(cfg, me, ch, w, e);
    case Redeliver(m, now) => if m in w.sent { ArrivalKeepsInStep(cfg, me, w, Arrival(m, now)); }
    case Foreign(m, via, c) => if !Authentic(me, m) { AttemptKeepsInStep(cfg, me, via, w, m, c); }
  }
}
