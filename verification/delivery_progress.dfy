/** When delivery moves on and when it stops for good. */
module DeliveryProgress {
  import opened CentralProtocol
  import opened ServerRuns
  import opened NodeAgents
  import opened Delivery

  // ----- flush is a run of single sends

  lemma {:induction false} PlayJoin(cfg: Config, me: Identity, ch: Channel, w: World, e1: seq<Event>, e2: seq<Event>)
    ensures Play(cfg, me, ch, w, e1 + e2) == Play(cfg, me, ch, Play(cfg, me, ch, w, e1), e2)
    decreases |e2|
  {
    if e2 == [] {
      assert e1 + e2 == e1;
    } else {
      var init := e2[..|e2| - 1];
      assert (e1 + e2)[..|e1 + e2| - 1] == e1 + init;
      PlayJoin(cfg, me, ch, w, e1, init);
    }
  }

  lemma PlayOne(cfg: Config, me: Identity, ch: Channel, w: World, e: Event)
    ensures Play(cfg, me, ch, w, [e]) == Next(cfg, me, ch, w, e)
  {
    assert [e][..0] == [];
    assert Play(cfg, me, ch, w, []) == w;
  }

  /** Sending the head over the offline transport, in the terms of the world. */
  lemma OfflineAttempt(cfg: Config, w: World, m: Message, c: Conditions)
    ensures var sent := SendOffline(cfg, w.link, Serve(cfg, w.arrivals), m, c);
      var w' := AfterAttempt(cfg, Offline, w, m, c);
      sent.link == w'.link && sent.server == Serve(cfg, w'.arrivals)
  {
    if Reaches(Offline, w.link, m, c) { ServeSnoc(cfg, w.arrivals, Arrival(m, c.now)); }
  }

  ghost predicate SameAs(f: Flushed, cfg: Config, w: World) {
    f.agent == w.agent && f.link == w.link && f.server == Serve(cfg, w.arrivals)
  }

  /** The first attempt of a flush is one `SendHead`; it goes on exactly if that was acknowledged. */
  lemma FlushStep(cfg: Config, me: Identity, w: World, env: nat -> Conditions, k: nat)
    requires w.agent.pending != []
    ensures var f := FlushFrom(cfg, w.agent, w.link, Serve(cfg, w.arrivals), env, k);
      var w1 := Next(cfg, me, Offline, w, SendHead(env(k)));
      if Acknowledged(cfg, Offline, w, w.agent.pending[0], env(k)) then
        var rest := FlushFrom(cfg, w1.agent, w1.link, Serve(cfg, w1.arrivals), env, k + 1);
        |w1.agent.pending| < |w.agent.pending| && f == rest.(acks := f.acks) && |f.acks| == |rest.acks| + 1
      else SameAs(f, cfg, w1) && |f.acks| <= 1
  {
    OfflineAttempt(cfg, w, w.agent.pending[0], env(k));
  }

  /** `flush` ends in the world that some number of single head sends leads to, so everything that
      holds of every run of events holds after every flush. */
  lemma {:induction false} FlushIsARun(cfg: Config, me: Identity, w: World, env: nat -> Conditions, k: nat)
    returns (events: seq<Event>)
    ensures var f := FlushFrom(cfg, w.agent, w.link, Serve(cfg, w.arrivals), env, k);
      SameAs(f, cfg, Play(cfg, me, Offline, w, events)) && |f.acks| <= |events| <= |f.acks| + 1
    ensures forall i :: 0 <= i < |events| ==> events[i].SendHead?
    decreases |w.agent.pending|
  {
    if w.agent.pending == [] {
      events := [];
    } else {
      var e := SendHead(env(k));
      var w1 := Next(cfg, me, Offline, w, e);
      FlushStep(cfg, me, w, env, k);
      PlayOne(cfg, me, Offline, w, e);
      if Acknowledged(cfg, Offline, w, w.agent.pending[0], env(k)) {
        var rest := FlushIsARun(cfg, me, w1, env, k + 1);
        events := [e] + rest;
        PlayJoin(cfg, me, Offline, w, [e], rest);
      } else {
        events := [e];
      }
    }
  }

  // ----- the saved acknowledgment

  predicate SavedRefusal(link: Link, m: Message) {
    IdOr(m, "") in link.acks && !link.acks[IdOr(m, "")].accepted
  }

  /** The offline transport's answer agrees with the service's, except when a refusal was saved for
      the identifier before: then the answer is that refusal whatever the service says now. */
  lemma OfflineAnswer(cfg: Config, me: Identity, ch: Channel, events: seq<Event>, m: Message, c: Conditions)
    requires Registered(cfg, me)
    ensures var w := Play(cfg, me, ch, START, events);
      var s := Serve(cfg, w.arrivals);
      var outcome := SendOffline(cfg, w.link, s, m, c).outcome;
      outcome.Ok? ==>
        (outcome.value.accepted <==> Reply(cfg, s, m, c.now).accepted && !SavedRefusal(w.link, m))
  {
    PlayFromStart(cfg, me, ch, events);
    AnswerOnFile(cfg, Play(cfg, me, ch, START, events), m, c);
  }

  lemma AnswerOnFile(cfg: Config, w: World, m: Message, c: Conditions)
    requires LinkInv(cfg, w)
    ensures var s := Serve(cfg, w.arrivals);
      var outcome := SendOffline(cfg, w.link, s, m, c).outcome;
      outcome.Ok? ==>
        (outcome.value.accepted <==> Reply(cfg, s, m, c.now).accepted && !SavedRefusal(w.link, m))
  {
    var id := IdOr(m, "");
    if id in w.link.acks && w.link.requests[id] == m && w.link.acks[id].accepted {
      assert InLog(Log(cfg, w), m);
      KnownExactly(cfg, w.arrivals, m, c.now);
    }
  }

  /** Once the head's refusal is saved, the head never leaves the queue again. */
  ghost predicate HeadRefusedOnFile(w: World) {
    && w.agent.pending != []
    && SavedRefusal(w.link, w.agent.pending[0])
  }

  lemma {:induction false} SavedRefusalIsForEver(cfg: Config, me: Identity, w: World, events: seq<Event>)
    requires HeadRefusedOnFile(w)
    ensures var w' := Play(cfg, me, Offline, w, events);
      && HeadRefusedOnFile(w') && w'.agent.pending[0] == w.agent.pending[0] && w'.dropped == w.dropped
  {
    if events != [] {
      SavedRefusalIsForEver(cfg, me, w, events[..|events| - 1]);
      RefusalOnFileKept(cfg, me, Play(cfg, me, Offline, w, events[..|events| - 1]), events[|events| - 1]);
    }
  }

  lemma RefusalOnFileKept(cfg: Config, me: Identity, w: World, e: Event)
    requires HeadRefusedOnFile(w)
    ensures var w' := Next(cfg, me, Offline, w, e);
      && HeadRefusedOnFile(w') && w'.agent.pending[0] == w.agent.pending[0] && w'.dropped == w.dropped
  {
  }

  /** And that happens: a batch sent once outside the skew limit and again inside it takes effect,
      while the agent is told it was refused and keeps it. */
  lemma RefusedOnFileThoughAccepted(cfg: Config, me: Identity, r: Reading, late: Instant, timely: Instant)
    requires Registered(cfg, me) && Collectable(me, r) && SafeId(r.batchId) && r.encodedBytes <= cfg.maximumPayloadBytes
    requires Abs(late - r.createdAt) > cfg.maximumSkew
    requires Abs(timely - r.createdAt) <= cfg.maximumSkew && MaxSampleSkew(r.samples, timely) <= cfg.maximumSkew
    ensures var w := Play(cfg, me, Offline, START,
        [CollectOnce(r), SendHead(Conditions(late, NoFault)), SendHead(Conditions(timely, NoFault))]);
      && HeadRefusedOnFile(w) && InLog(Log(cfg, w), w.agent.pending[0]) && w.dropped == []
  {
    var e1, e2, e3 := CollectOnce(r), SendHead(Conditions(late, NoFault)), SendHead(Conditions(timely, NoFault));
    var w1 := Next(cfg, me, Offline, START, e1);
    PlayThree(cfg, me, Offline, START, e1, e2, e3);
    FirstSend(cfg, me, w1, late);
    var w2 := Next(cfg, me, Offline, w1, e2);
    SecondSend(cfg, w2, timely);
    RefusalOnFileKept(cfg, me, w2, e3);
  }

  lemma PlayThree(cfg: Config, me: Identity, ch: Channel, w: World, e1: Event, e2: Event, e3: Event)
    ensures Play(cfg, me, ch, w, [e1, e2, e3]) == Next(cfg, me, ch, Next(cfg, me, ch, Next(cfg, me, ch, w, e1), e2), e3)
  {
    assert [e1, e2, e3][..2] == [e1, e2] && [e1, e2][..1] == [e1];
    PlayOne(cfg, me, ch, w, e1);
  }

  lemma LateVerdict(cfg: Config, m: Message, late: Instant)
    requires Screen(cfg, m).None? && Abs(late - m.envelope.createdAt.value) > cfg.maximumSkew
    ensures Verdict(cfg, EMPTY_STATE, m, late) == ClockSkew
  {
  }

  /** A first attempt on a message the service refuses puts request and refusal on file. */
  lemma RefusedAttempt(cfg: Config, s: ServerState, m: Message, now: Instant)
    requires SafeId(IdOr(m, "")) && !Reply(cfg, s, m, now).accepted
    ensures var id, ack := IdOr(m, ""), Reply(cfg, s, m, now);
      var sent := SendOffline(cfg, Link(map[], map[]), s, m, Conditions(now, NoFault));
      sent.link == Link(map[id := m], map[id := ack]) && sent.outcome.Ok? && sent.outcome.value == ack
  {
  }

  /** A first message outside the skew limit: refused, and the refusal goes on file. */
  lemma FirstSend(cfg: Config, me: Identity, w: World, late: Instant)
    requires w.arrivals == [] && w.link == Link(map[], map[]) && w.agent.pending != []
    requires var head := w.agent.pending[0];
      Screen(cfg, head).None? && SafeId(IdOr(head, "")) && Abs(late - head.envelope.createdAt.value) > cfg.maximumSkew
    ensures var w' := Next(cfg, me, Offline, w, SendHead(Conditions(late, NoFault)));
      && w'.agent == w.agent && w'.dropped == w.dropped && HeadRefusedOnFile(w')
      && w'.arrivals == [Arrival(w.agent.pending[0], late)] && Serve(cfg, w'.arrivals) == EMPTY_STATE
      && w'.link.requests == map[IdOr(w.agent.pending[0], "") := w.agent.pending[0]]
  {
    var head := w.agent.pending[0];
    assert Serve(cfg, []) == EMPTY_STATE;
    LateVerdict(cfg, head, late);
    ReplyAccepts(cfg, EMPTY_STATE, head, late);
    RefusedAttempt(cfg, EMPTY_STATE, head, late);
    assert w.arrivals + [Arrival(head, late)] == [Arrival(head, late)];
    LoneRefusal(cfg, Arrival(head, late));
  }

  lemma LoneRefusal(cfg: Config, x: Arrival)
    requires Verdict(cfg, EMPTY_STATE, x.message, x.now) != Accepted
    ensures Serve(cfg, [x]) == EMPTY_STATE
  {
    assert [] + [x] == [x];
    ServeSnoc(cfg, [], x);
  }

  /** Sent again inside the limit to a service that has accepted nothing yet, it takes effect. */
  lemma SecondSend(cfg: Config, w: World, timely: Instant)
    requires Serve(cfg, w.arrivals) == EMPTY_STATE && w.agent.pending != []
    requires var head := w.agent.pending[0];
      && Screen(cfg, head).None? && IsBatch(head)
      && Abs(timely - head.envelope.createdAt.value) <= cfg.maximumSkew
      && MaxSampleSkew(head.envelope.body.samples, timely) <= cfg.maximumSkew
      && Reaches(Offline, w.link, head, Conditions(timely, NoFault))
    ensures InLog(Log(cfg, AfterAttempt(cfg, Offline, w, w.agent.pending[0], Conditions(timely, NoFault))),
      w.agent.pending[0])
  {
    var head := w.agent.pending[0];
    assert Verdict(cfg, EMPTY_STATE, head, timely) == Accepted;
    AckMeansLogged(cfg, w.arrivals, head, timely);
  }

  // ----- the heartbeat that overtakes a batch

  /** The service already counts past the head, which has not taken effect. */
  ghost predicate Overtaken(cfg: Config, w: World) {
    && w.agent.pending != []
    && !InLog(Log(cfg, w), w.agent.pending[0])
    && var s, e := Serve(cfg, w.arrivals), w.agent.pending[0].envelope;
       e.agentId in s.lastSequence && e.sequence <= s.lastSequence[e.agentId]
  }

  lemma ArrivalKeepsOvertaken(cfg: Config, w: World, x: Arrival)
    requires Overtaken(cfg, w)
    ensures Overtaken(cfg, w.(arrivals := w.arrivals + [x]))
  {
    ServeSnoc(cfg, w.arrivals, x);
    KnownExactly(cfg, w.arrivals, w.agent.pending[0], x.now);
    ScreenNeverAccepts(cfg, x.message);
    var log' := AcceptedLog(cfg, w.arrivals + [x]);
    forall i | 0 <= i < |log'|
      ensures log'[i].message != w.agent.pending[0]
    {
      if i < |Log(cfg, w)| { assert log'[i] == Log(cfg, w)[i]; }
    }
  }

  lemma OvertakenKept(cfg: Config, me: Identity, ch: Channel, w: World, e: Event)
    requires Registered(cfg, me) && Inv(cfg, me, w) && Overtaken(cfg, w)
    ensures var w' := Next(cfg, me, ch, w, e);
      Overtaken(cfg, w') && w'.dropped == w.dropped && w'.agent.pending[0] == w.agent.pending[0]
  {
    match e
    case CollectOnce(r) =>
    case SendHead(c) =>
      AttemptKeepsOvertaken(cfg, ch, w, w.agent.pending[0], c);
      AttemptKeepsLink(cfg, ch, w, w.agent.pending[0], c);
    case Beat(id, at, n, c) => AttemptKeepsOvertaken(cfg, ch, w, NewHeartbeat(me, w.agent, id, at, n), c);
    case Redeliver(m, now) =>
      if m in w.sent { ArrivalKeepsOvertaken(cfg, w, Arrival(m, now)); }
    case Foreign(m, via, c) =>
      if !Authentic(me, m) { AttemptKeepsOvertaken(cfg, via, w, m, c); }
  }

  lemma AttemptKeepsOvertaken(cfg: Config, via: Channel, w: World, m: Message, c: Conditions)
    requires Overtaken(cfg, w)
    ensures Overtaken(cfg, AfterAttempt(cfg, via, w, m, c))
  {
    if Reaches(via, w.link, m, c) { ArrivalKeepsOvertaken(cfg, w, Arrival(m, c.now)); }
  }

  /** An overtaken head is refused for ever, and with it everything queued behind it. */
  lemma {:induction false} OvertakenIsForEver(cfg: Config, me: Identity, ch: Channel, w: World, events: seq<Event>)
    requires Registered(cfg, me) && Inv(cfg, me, w) && Overtaken(cfg, w)
    ensures var w' := Play(cfg, me, ch, w, events);
      Overtaken(cfg, w') && w'.dropped == w.dropped && w'.agent.pending[0] == w.agent.pending[0]
  {
    if events != [] {
      var init := events[..|events| - 1];
      OvertakenIsForEver(cfg, me, ch, w, init);
      PlayKeeps(cfg, me, ch, w, init);
      OvertakenKept(cfg, me, ch, Play(cfg, me, ch, w, init), events[|events| - 1]);
    }
  }

  lemma FirstBeatAccepted(cfg: Config, me: Identity, st: AgentState, id: MessageId, at: Instant, n: nat, now: Instant)
    requires Registered(cfg, me) && id != "" && n <= cfg.maximumPayloadBytes && Abs(now - at) <= cfg.maximumSkew
    ensures Verdict(cfg, EMPTY_STATE, NewHeartbeat(me, st, id, at, n), now) == Accepted
  {
    var beat := NewHeartbeat(me, st, id, at, n);
    assert Screen(cfg, beat).None?;
  }

  lemma FirstCollect(cfg: Config, me: Identity, r: Reading)
    requires Collectable(me, r)
    ensures var w := Next(cfg, me, Direct, START, CollectOnce(r));
      w.arrivals == [] && w.agent.pending == [NewBatch(me, NEW_AGENT, r)] && w.agent.nextSequence == 1
  {
  }

  lemma LoneArrival(cfg: Config, x: Arrival)
    requires Verdict(cfg, EMPTY_STATE, x.message, x.now) == Accepted
    ensures AcceptedLog(cfg, [x]) == [x] && Serve(cfg, [x]) == Commit(EMPTY_STATE, x.message, x.now)
  {
    assert [] + [x] == [x];
    ServeSnoc(cfg, [], x);
  }

  /** Behind a heartbeat that is the first message to take effect, a queued batch is overtaken. */
  lemma FirstBeat(cfg: Config, me: Identity, w: World, id: MessageId, at: Instant, n: nat, now: Instant)
    requires Registered(cfg, me) && id != "" && n <= cfg.maximumPayloadBytes && Abs(now - at) <= cfg.maximumSkew
    requires w.arrivals == [] && w.agent.pending != [] && IsBatch(w.agent.pending[0])
    requires w.agent.pending[0].envelope.agentId == me.agentId
    requires w.agent.pending[0].envelope.sequence <= w.agent.nextSequence
    ensures Overtaken(cfg, Next(cfg, me, Direct, w, Beat(id, at, n, Conditions(now, NoFault))))
  {
    var beat := NewHeartbeat(me, w.agent, id, at, n);
    FirstBeatAccepted(cfg, me, w.agent, id, at, n, now);
    LoneArrival(cfg, Arrival(beat, now));
    assert w.arrivals + [Arrival(beat, now)] == [Arrival(beat, now)];
  }

  /** A heartbeat sent before the first batch was delivered does exactly that. */
  lemma FirstHeartbeatOvertakes(cfg: Config, me: Identity, r: Reading, id: MessageId, at: Instant, n: nat, now: Instant)
    requires Registered(cfg, me) && Collectable(me, r) && id != "" && id != r.batchId && n <= cfg.maximumPayloadBytes
    requires Abs(now - at) <= cfg.maximumSkew
    ensures Overtaken(cfg, Play(cfg, me, Direct, START, [CollectOnce(r), Beat(id, at, n, Conditions(now, NoFault))]))
  {
    var e1, e2 := CollectOnce(r), Beat(id, at, n, Conditions(now, NoFault));
    var w1 := Next(cfg, me, Direct, START, e1);
    assert [e1, e2][..1] == [e1];
    PlayOne(cfg, me, Direct, START, e1);
    FirstCollect(cfg, me, r);
    FirstBeat(cfg, me, w1, id, at, n, now);
  }
}
