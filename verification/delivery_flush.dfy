/** Exactly when an agent in step gets rid of its queue. */
module DeliveryFlush {
  import opened CentralProtocol
  import opened ServerRuns
  import opened NodeAgents
  import opened Delivery
  import opened DeliveryProgress
  import opened DeliveryDiscipline

  /** The attempt goes through, and the service either knows the batch or finds its ID free and its age
      within the limit. */
  ghost predicate Fit(cfg: Config, ch: Channel, w: World, m: Message, c: Conditions) {
    && c.fault == NoFault && Reaches(ch, w.link, m, c)
    && (ch == Offline ==> !SavedRefusal(w.link, m))
    && m.envelope.encodedBytes <= cfg.maximumPayloadBytes
    && IsBatch(m) && m.envelope.createdAt.Some?
    && (InLog(Log(cfg, w), m) || (IdOf(m) !in Serve(cfg, w.arrivals).seenIds && Timely(cfg, m, c.now)))
  }

  // The head

  /** The transport answers exactly if the attempt goes through without a fault. */
  lemma AnsweredExactly(cfg: Config, ch: Channel, link: Link, s: ServerState, m: Message, c: Conditions)
    ensures Attempt(cfg, ch, link, s, m, c).outcome.Ok? <==> c.fault == NoFault && Reaches(ch, link, m, c)
    ensures ch == Direct && c.fault == NoFault ==>
      Attempt(cfg, ch, link, s, m, c).outcome.value == Reply(cfg, s, m, c.now)
  {
  }

  /** A head that has not taken effect is next in turn. */
  lemma HeadIsInTurn(cfg: Config, me: Identity, w: World)
    requires InStep(cfg, me, w) && w.agent.pending != [] && !InLog(Log(cfg, w), w.agent.pending[0])
    requires w.agent.pending[0].envelope.agentId == me.agentId
    ensures InTurn(Serve(cfg, w.arrivals), w.agent.pending[0])
  {
  }

  lemma HeadAcknowledgedExactly(cfg: Config, me: Identity, ch: Channel, w: World, c: Conditions)
    requires Registered(cfg, me) && Inv(cfg, me, w) && InStep(cfg, me, w) && w.agent.pending != []
    ensures Acknowledged(cfg, ch, w, w.agent.pending[0], c) <==> Fit(cfg, ch, w, w.agent.pending[0], c)
  {
    var head := w.agent.pending[0];
    HeadIsNext(me, w);
    HeadVerdict(cfg, me, w, c.now);
    AnsweredExactly(cfg, ch, w.link, Serve(cfg, w.arrivals), head, c);
    if !InLog(Log(cfg, w), head) { HeadIsInTurn(cfg, me, w); }
    if ch == Offline { AnswerOnFile(cfg, w, head, c); }
  }

  /** What sending the head does to the agent. */
  ghost predicate HeadOutcome(w: World, w': World, fit: bool)
    requires w.agent.pending != []
  {
    if fit then w'.dropped == w.dropped + [w.agent.pending[0]] && w'.agent.pending == w.agent.pending[1..]
    else w'.dropped == w.dropped && w'.agent == w.agent
  }

  lemma SendingDecides(cfg: Config, me: Identity, ch: Channel, w: World, c: Conditions)
    requires w.agent.pending != []
    ensures HeadOutcome(w, Next(cfg, me, ch, w, SendHead(c)), Acknowledged(cfg, ch, w, w.agent.pending[0], c))
  {
  }

  /** After any disciplined run, with any losses before it, sending the head delivers and drops it exactly
      if it is fit; otherwise it stays at the head of the queue. */
  lemma HeadDeliveredExactly(cfg: Config, me: Identity, ch: Channel, events: seq<Event>, c: Conditions)
    requires Registered(cfg, me) && Disciplined(cfg, me, ch, events)
    requires Play(cfg, me, ch, START, events).agent.pending != []
    ensures var w := Play(cfg, me, ch, START, events);
      HeadOutcome(w, Play(cfg, me, ch, START, events + [SendHead(c)]), Fit(cfg, ch, w, w.agent.pending[0], c))
  {
    var w := Play(cfg, me, ch, START, events);
    DisciplinedInStep(cfg, me, ch, events);
    assert (events + [SendHead(c)])[..|events|] == events;
    HeadAcknowledgedExactly(cfg, me, ch, w, c);
    SendingDecides(cfg, me, ch, w, c);
  }

  // A whole flush

  ghost predicate FitFrom(cfg: Config, w: World, batches: seq<Message>, env: nat -> Conditions, k: nat) {
    forall i :: 0 <= i < |batches| ==> Fit(cfg, Offline, w, batches[i], env(k + i))
  }

  ghost predicate DistinctIds(batches: seq<Message>) {
    forall i, j :: 0 <= i < j < |batches| ==> IdOf(batches[i]) != IdOf(batches[j])
  }

  /** Every pending batch is fit for the attempt it will meet, and no two share an ID. */
  ghost predicate AllFit(cfg: Config, w: World, env: nat -> Conditions, k: nat) {
    FitFrom(cfg, w, w.agent.pending, env, k) && DistinctIds(w.agent.pending)
  }

  /** The files after an attempt that goes through. */
  lemma AttemptFilesExactly(cfg: Config, w: World, head: Message, c: Conditions)
    requires c.fault == NoFault && Reaches(Offline, w.link, head, c)
    ensures var id, link := IdOr(head, ""), AfterAttempt(cfg, Offline, w, head, c).link;
      && link.requests == w.link.requests[id := head]
      && (link.acks == w.link.acks
        || (id !in w.link.acks && link.acks == w.link.acks[id := Reply(cfg, Serve(cfg, w.arrivals), head, c.now)]))
  {
  }

  /** Whether another message is logged, or its ID taken, does not depend on the attempt. */
  lemma OtherUntouched(cfg: Config, arrivals: seq<Arrival>, x: Arrival, m: Message)
    requires m != x.message
    ensures InLog(AcceptedLog(cfg, arrivals + [x]), m) <==> InLog(AcceptedLog(cfg, arrivals), m)
    ensures IdOf(m) != IdOf(x.message) ==>
      (IdOf(m) in Serve(cfg, arrivals + [x]).seenIds <==> IdOf(m) in Serve(cfg, arrivals).seenIds)
  {
    ServeSnoc(cfg, arrivals, x);
    if InLog(AcceptedLog(cfg, arrivals), m) { LogKeeps(cfg, arrivals, x, m); }
  }

  lemma OtherReaches(cfg: Config, w: World, head: Message, c: Conditions, m: Message, later: Conditions)
    requires c.fault == NoFault && Reaches(Offline, w.link, head, c) && m != head
    ensures var link := AfterAttempt(cfg, Offline, w, head, c).link;
      && (IdOr(m, "") == IdOr(head, "") ==> !Reaches(Offline, link, m, later))
      && (IdOr(m, "") != IdOr(head, "") ==>
        (Reaches(Offline, link, m, later) <==> Reaches(Offline, w.link, m, later))
        && (SavedRefusal(link, m) <==> SavedRefusal(w.link, m)))
  {
    AttemptFilesExactly(cfg, w, head, c);
  }

  lemma SafeIdsAgree(m: Message, n: Message)
    requires SafeId(IdOr(m, "")) && SafeId(IdOr(n, ""))
    ensures IdOf(m) == IdOf(n) <==> IdOr(m, "") == IdOr(n, "")
  {
  }

  /** Sending a batch leaves the fitness of another one as it was, exactly if the two do not share an ID. */
  lemma OtherFitExactly(cfg: Config, w: World, head: Message, c: Conditions, m: Message, later: Conditions)
    requires c.fault == NoFault && Reaches(Offline, w.link, head, c) && m != head
    ensures Fit(cfg, Offline, AfterAttempt(cfg, Offline, w, head, c), m, later)
            <==> Fit(cfg, Offline, w, m, later) && IdOf(m) != IdOf(head)
  {
    OtherUntouched(cfg, w.arrivals, Arrival(head, c.now), m);
    OtherReaches(cfg, w, head, c, m, later);
    if SafeId(IdOr(m, "")) { SafeIdsAgree(m, head); }
  }

  /** No batch is queued twice. */
  lemma QueuedOnce(me: Identity, w: World, i: nat)
    requires QueueInv(me, w) && 0 < i < |w.agent.pending|
    ensures w.agent.pending[i] != w.agent.pending[0]
  {
    var n := |w.dropped|;
    assert w.collected[n] == w.agent.pending[0] && w.collected[n + i] == w.agent.pending[i];
    assert w.collected[n].envelope.sequence < w.collected[n + i].envelope.sequence;
  }

  /** The i-th batch is fit for its own attempt and does not share the head's ID. */
  ghost predicate RestFitAt(cfg: Config, w: World, env: nat -> Conditions, k: nat, i: nat)
    requires i < |w.agent.pending|
  {
    Fit(cfg, Offline, w, w.agent.pending[i], env(k + i)) && IdOf(w.agent.pending[i]) != IdOf(w.agent.pending[0])
  }

  ghost predicate RestFit(cfg: Config, w: World, env: nat -> Conditions, k: nat) {
    forall i: nat :: 0 < i < |w.agent.pending| ==> RestFitAt(cfg, w, env, k, i)
  }

  lemma TailFitExactly(cfg: Config, me: Identity, w: World, env: nat -> Conditions, k: nat, i: nat)
    requires QueueInv(me, w) && 0 < i < |w.agent.pending|
    requires Fit(cfg, Offline, w, w.agent.pending[0], env(k))
    ensures Fit(cfg, Offline, AfterAttempt(cfg, Offline, w, w.agent.pending[0], env(k)), w.agent.pending[i], env(k + i))
            <==> RestFitAt(cfg, w, env, k, i)
  {
    QueuedOnce(me, w, i);
    OtherFitExactly(cfg, w, w.agent.pending[0], env(k), w.agent.pending[i], env(k + i));
  }

  lemma DistinctTail(batches: seq<Message>)
    requires batches != []
    ensures DistinctIds(batches) <==>
      DistinctIds(batches[1..]) && forall i :: 0 < i < |batches| ==> IdOf(batches[i]) != IdOf(batches[0])
  {
    if DistinctIds(batches[1..]) && forall i :: 0 < i < |batches| ==> IdOf(batches[i]) != IdOf(batches[0]) {
      forall i, j | 0 <= i < j < |batches|
        ensures IdOf(batches[i]) != IdOf(batches[j])
      {
        if i > 0 { assert batches[1..][i - 1] == batches[i] && batches[1..][j - 1] == batches[j]; }
      }
    }
  }

  /** Fitness of the queue behind the head, counted from the new head. */
  lemma FitFromShifted(cfg: Config, w: World, batches: seq<Message>, env: nat -> Conditions, k: nat)
    requires batches != []
    ensures FitFrom(cfg, w, batches[1..], env, k + 1)
            <==> forall i: nat :: 0 < i < |batches| ==> Fit(cfg, Offline, w, batches[i], env(k + i))
  {
    forall i: nat | i < |batches[1..]|
      ensures batches[1..][i] == batches[i + 1] && env(k + 1 + i) == env(k + (i + 1))
    {
      assert k + 1 + i == k + (i + 1);
    }
    if FitFrom(cfg, w, batches[1..], env, k + 1) {
      forall i: nat | 0 < i < |batches|
        ensures Fit(cfg, Offline, w, batches[i], env(k + i))
      {
        var j: nat := i - 1;
        assert Fit(cfg, Offline, w, batches[1..][j], env(k + 1 + j));
      }
    }
  }

  lemma RestFitExactly(cfg: Config, me: Identity, w: World, env: nat -> Conditions, k: nat)
    requires QueueInv(me, w) && w.agent.pending != [] && Fit(cfg, Offline, w, w.agent.pending[0], env(k))
    ensures FitFrom(cfg, AfterAttempt(cfg, Offline, w, w.agent.pending[0], env(k)), w.agent.pending[1..], env, k + 1)
            <==> RestFit(cfg, w, env, k)
  {
    var w' := AfterAttempt(cfg, Offline, w, w.agent.pending[0], env(k));
    FitFromShifted(cfg, w', w.agent.pending, env, k);
    forall i: nat | 0 < i < |w.agent.pending|
      ensures Fit(cfg, Offline, w', w.agent.pending[i], env(k + i)) <==> RestFitAt(cfg, w, env, k, i)
    {
      TailFitExactly(cfg, me, w, env, k, i);
    }
  }

  lemma QueueFitExactly(cfg: Config, w: World, env: nat -> Conditions, k: nat)
    requires w.agent.pending != [] && Fit(cfg, Offline, w, w.agent.pending[0], env(k))
    ensures AllFit(cfg, w, env, k) <==> RestFit(cfg, w, env, k) && DistinctIds(w.agent.pending[1..])
  {
    DistinctTail(w.agent.pending);
    if RestFit(cfg, w, env, k) && DistinctIds(w.agent.pending[1..]) {
      forall i: nat | i < |w.agent.pending|
        ensures Fit(cfg, Offline, w, w.agent.pending[i], env(k + i))
        ensures i > 0 ==> IdOf(w.agent.pending[i]) != IdOf(w.agent.pending[0])
      {
        if i > 0 { assert RestFitAt(cfg, w, env, k, i); } else { assert k + 0 == k; }
      }
    }
    if AllFit(cfg, w, env, k) {
      forall i: nat | 0 < i < |w.agent.pending|
        ensures RestFitAt(cfg, w, env, k, i)
      {
        assert Fit(cfg, Offline, w, w.agent.pending[i], env(k + i));
      }
    }
  }

  /** An attempt that goes through moves the agent and the world on. */
  lemma AfterSending(cfg: Config, me: Identity, w: World, c: Conditions)
    requires w.agent.pending != [] && Acknowledged(cfg, Offline, w, w.agent.pending[0], c)
    ensures var w', w1 := Next(cfg, me, Offline, w, SendHead(c)), AfterAttempt(cfg, Offline, w, w.agent.pending[0], c);
      w'.agent.pending == w.agent.pending[1..] && w'.link == w1.link && w'.arrivals == w1.arrivals
  {
  }

  lemma FitElsewhere(cfg: Config, w: World, w': World, batches: seq<Message>, env: nat -> Conditions, k: nat)
    requires w'.link == w.link && w'.arrivals == w.arrivals
    ensures FitFrom(cfg, w', batches, env, k) <==> FitFrom(cfg, w, batches, env, k)
  {
    forall m: Message, c: Conditions
      ensures Fit(cfg, Offline, w', m, c) <==> Fit(cfg, Offline, w, m, c)
    {
    }
  }

  /** Behind a fit head, the whole queue is fit exactly if the rest is after the head was sent. */
  lemma FitMovesOn(cfg: Config, me: Identity, w: World, env: nat -> Conditions, k: nat)
    requires QueueInv(me, w) && w.agent.pending != [] && Fit(cfg, Offline, w, w.agent.pending[0], env(k))
    requires Acknowledged(cfg, Offline, w, w.agent.pending[0], env(k))
    ensures AllFit(cfg, w, env, k) <==> AllFit(cfg, Next(cfg, me, Offline, w, SendHead(env(k))), env, k + 1)
  {
    var w', w1 := Next(cfg, me, Offline, w, SendHead(env(k))),
      AfterAttempt(cfg, Offline, w, w.agent.pending[0], env(k));
    QueueFitExactly(cfg, w, env, k);
    RestFitExactly(cfg, me, w, env, k);
    AfterSending(cfg, me, w, env(k));
    FitElsewhere(cfg, w1, w', w.agent.pending[1..], env, k + 1);
  }

  lemma {:induction false} FlushedExactly(cfg: Config, me: Identity, w: World, env: nat -> Conditions, k: nat)
    requires Registered(cfg, me) && Inv(cfg, me, w) && InStep(cfg, me, w)
    ensures var f := FlushFrom(cfg, w.agent, w.link, Serve(cfg, w.arrivals), env, k);
      && (f.agent.pending == [] <==> AllFit(cfg, w, env, k))
      && (f.agent.pending == [] ==> f.failure.None? && |f.acks| == |w.agent.pending|)
    decreases |w.agent.pending|
  {
    if w.agent.pending != [] {
      FlushStep(cfg, me, w, env, k);
      HeadAcknowledgedExactly(cfg, me, Offline, w, env(k));
      if Acknowledged(cfg, Offline, w, w.agent.pending[0], env(k)) {
        SendHeadKeeps(cfg, me, Offline, w, env(k));
        SendHeadKeepsInStep(cfg, me, Offline, w, env(k));
        FitMovesOn(cfg, me, w, env, k);
        FlushedExactly(cfg, me, Next(cfg, me, Offline, w, SendHead(env(k))), env, k + 1);
      } else {
        assert !Fit(cfg, Offline, w, w.agent.pending[0], env(k + 0));
      }
    }
  }

  /** After any disciplined run over the offline transport, one flush empties the queue exactly if every
      pending batch is fit for the attempt it meets and no two of them share an ID. */
  lemma FlushEmptiesQueueExactly(cfg: Config, me: Identity, events: seq<Event>, env: nat -> Conditions)
    requires Registered(cfg, me) && Disciplined(cfg, me, Offline, events)
    ensures var w := Play(cfg, me, Offline, START, events);
      var f := FlushFrom(cfg, w.agent, w.link, Serve(cfg, w.arrivals), env, 0);
      && (f.agent.pending == [] <==> AllFit(cfg, w, env, 0))
      && (f.agent.pending == [] ==> f.failure.None? && |f.acks| == |w.agent.pending|)
  {
    DisciplinedInStep(cfg, me, Offline, events);
    FlushedExactly(cfg, me, Play(cfg, me, Offline, START, events), env, 0);
  }
}
