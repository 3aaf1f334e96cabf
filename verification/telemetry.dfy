/** From the agent's readings to the service's ledger: what arrives is what was measured. */
module Telemetry {
  import opened Common
  import opened CentralProtocol
  import opened ServerRuns
  import opened NodeAgents
  import opened Delivery

  /** The complete readings among the events, in order. */
  function ReadingsIn(events: seq<Event>): seq<Reading> {
    if events == [] then []
    else
      var init, last := ReadingsIn(events[..|events| - 1]), events[|events| - 1];
      if last.CollectOnce? && CompleteReading(last.reading) then init + [last.reading] else init
  }

  ghost predicate AllCarried(me: Identity, batches: seq<Message>, readings: seq<Reading>) {
    |batches| == |readings| && forall i :: 0 <= i < |batches| ==> Carries(me, batches[i], readings[i])
  }

  lemma StepCarries(cfg: Config, me: Identity, ch: Channel, w: World, e: Event)
    requires Registered(cfg, me)
    ensures var w' := Next(cfg, me, ch, w, e);
      if e.CollectOnce? && CompleteReading(e.reading)
      then w'.collected == w.collected + [NewBatch(me, w.agent, e.reading)] else w'.collected == w.collected
  {
    if e.CollectOnce? { CollectableExactly(me, e.reading); }
  }

  /** Over every interleaving the agent's batches are its complete readings, one for one and in order,
      each with all of its samples. */
  lemma {:induction false} CollectedAreReadings(cfg: Config, me: Identity, ch: Channel, events: seq<Event>)
    requires Registered(cfg, me)
    ensures AllCarried(me, Play(cfg, me, ch, START, events).collected, ReadingsIn(events))
  {
    if events != [] {
      var init, e := events[..|events| - 1], events[|events| - 1];
      CollectedAreReadings(cfg, me, ch, init);
      var w := Play(cfg, me, ch, START, init);
      StepCarries(cfg, me, ch, w, e);
      if e.CollectOnce? { NewBatchCarries(me, w.agent, e.reading); }
    }
  }

  // The ledger

  /** One reading as the service stores it. */
  function StoredReading(r: Reading): (entries: seq<Entry>)
    ensures |entries| == |r.samples|
    ensures forall i :: 0 <= i < |entries| ==> entries[i] == Entry(r.batchId, r.samples[i])
  {
    seq(|r.samples|, i requires 0 <= i < |r.samples| => Entry(r.batchId, r.samples[i]))
  }

  function Stored(readings: seq<Reading>): seq<Entry> {
    if readings == [] then [] else Stored(readings[..|readings| - 1]) + StoredReading(readings[|readings| - 1])
  }

  function BatchEntries(batches: seq<Message>): seq<Entry> {
    if batches == [] then [] else BatchEntries(batches[..|batches| - 1]) + EntriesOf(batches[|batches| - 1])
  }

  lemma {:induction false} EntriesComeFromBatches(part: seq<Arrival>)
    ensures AllEntries(part) == BatchEntries(Batches(part))
  {
    if part != [] {
      var init, x := part[..|part| - 1], part[|part| - 1];
      EntriesComeFromBatches(init);
      assert part == init + [x];
      BatchesSnoc(init, x);
      if IsBatch(x.message) {
        assert (Batches(init) + [x.message])[..|Batches(init)|] == Batches(init);
      }
    }
  }

  lemma CarriedEntries(me: Identity, m: Message, r: Reading)
    requires Carries(me, m, r)
    ensures EntriesOf(m) == StoredReading(r)
  {
  }

  lemma {:induction false} CarriedLedger(me: Identity, batches: seq<Message>, readings: seq<Reading>)
    requires AllCarried(me, batches, readings)
    ensures BatchEntries(batches) == Stored(readings)
  {
    if batches != [] {
      var n := |batches| - 1;
      CarriedLedger(me, batches[..n], readings[..n]);
      CarriedEntries(me, batches[n], readings[n]);
    }
  }

  /** The readings whose batches took effect. */
  function Delivered(cfg: Config, me: Identity, ch: Channel, events: seq<Event>): seq<Reading> {
    var readings, n := ReadingsIn(events), |Mine(cfg, me, Play(cfg, me, ch, START, events))|;
    if n <= |readings| then readings[..n] else readings
  }

  lemma AcceptedAreReadings(cfg: Config, me: Identity, ch: Channel, events: seq<Event>)
    requires Registered(cfg, me)
    ensures AllCarried(me, Mine(cfg, me, Play(cfg, me, ch, START, events)), Delivered(cfg, me, ch, events))
    ensures Delivered(cfg, me, ch, events) <= ReadingsIn(events)
  {
    CollectedAreReadings(cfg, me, ch, events);
    ExactlyOnceInOrder(cfg, me, ch, events);
    var w := Play(cfg, me, ch, START, events);
    var mine := Mine(cfg, me, w);
    assert forall i :: 0 <= i < |mine| ==> mine[i] == w.collected[i];
  }

  /** Over every interleaving the service's ledger of the agent holds exactly the samples of the readings
      whose batches took effect, reading after reading and sample after sample. */
  lemma LedgerIsReadings(cfg: Config, me: Identity, ch: Channel, events: seq<Event>)
    requires Registered(cfg, me)
    ensures Ledger(Serve(cfg, Play(cfg, me, ch, START, events).arrivals).agentSamples, me.agentId)
            == Stored(Delivered(cfg, me, ch, events))
  {
    var w := Play(cfg, me, ch, START, events);
    AcceptedAreReadings(cfg, me, ch, events);
    CarriedLedger(me, Mine(cfg, me, w), Delivered(cfg, me, ch, events));
    EntriesComeFromBatches(OfAgent(Log(cfg, w), me.agentId));
    AgentLedger(cfg, w.arrivals, me.agentId);
  }

  lemma AgentLedger(cfg: Config, arrivals: seq<Arrival>, a: AgentId)
    ensures Ledger(Serve(cfg, arrivals).agentSamples, a) == AllEntries(OfAgent(AcceptedLog(cfg, arrivals), a))
  {
    ReachableInv(cfg, arrivals);
    assert Ledger(Serve(cfg, arrivals).agentSamples, a) == AllEntries(OfAgent(AcceptedLog(cfg, arrivals), a));
  }

  // One batch in the ledger

  /** The samples stored under an id, in order. */
  function SamplesUnder(entries: seq<Entry>, id: MessageId): seq<Sample> {
    if entries == [] then []
    else
      var init, last := SamplesUnder(entries[..|entries| - 1], id), entries[|entries| - 1];
      if last.batchId == id then init + [last.sample] else init
  }

  lemma {:induction false} UnderAppend(x: seq<Entry>, y: seq<Entry>, id: MessageId)
    ensures SamplesUnder(x + y, id) == SamplesUnder(x, id) + SamplesUnder(y, id)
    decreases |y|
  {
    if y == [] {
      assert x + y == x;
    } else {
      assert (x + y)[..|x + y| - 1] == x + y[..|y| - 1];
      UnderAppend(x, y[..|y| - 1], id);
    }
  }

  lemma {:induction false} UnderUniform(entries: seq<Entry>, own: MessageId, samples: seq<Sample>, id: MessageId)
    requires |entries| == |samples| && forall i :: 0 <= i < |entries| ==> entries[i] == Entry(own, samples[i])
    ensures SamplesUnder(entries, id) == if own == id then samples else []
  {
    if entries != [] {
      var n := |entries| - 1;
      UnderUniform(entries[..n], own, samples[..n], id);
      assert samples == samples[..n] + [samples[n]];
    }
  }

  lemma {:induction false} UnderForeign(readings: seq<Reading>, id: MessageId)
    requires forall i :: 0 <= i < |readings| ==> readings[i].batchId != id
    ensures SamplesUnder(Stored(readings), id) == []
  {
    if readings != [] {
      var n := |readings| - 1;
      UnderForeign(readings[..n], id);
      UnderAppend(Stored(readings[..n]), StoredReading(readings[n]), id);
      UnderUniform(StoredReading(readings[n]), readings[n].batchId, readings[n].samples, id);
    }
  }

  ghost predicate OwnIds(readings: seq<Reading>) {
    forall i, j :: 0 <= i < j < |readings| ==> readings[i].batchId != readings[j].batchId
  }

  lemma {:induction false} UnderOwn(readings: seq<Reading>, k: nat)
    requires OwnIds(readings) && k < |readings|
    ensures SamplesUnder(Stored(readings), readings[k].batchId) == readings[k].samples
  {
    var n := |readings| - 1;
    var id := readings[k].batchId;
    UnderAppend(Stored(readings[..n]), StoredReading(readings[n]), id);
    UnderUniform(StoredReading(readings[n]), readings[n].batchId, readings[n].samples, id);
    if k < n { UnderOwn(readings[..n], k); } else { UnderForeign(readings[..n], id); }
  }

  lemma DeliveredIds(cfg: Config, me: Identity, ch: Channel, events: seq<Event>)
    requires Registered(cfg, me)
    ensures OwnIds(Delivered(cfg, me, ch, events))
  {
    AcceptedAreReadings(cfg, me, ch, events);
    ExactlyOnceInOrder(cfg, me, ch, events);
    var mine, readings := Mine(cfg, me, Play(cfg, me, ch, START, events)), Delivered(cfg, me, ch, events);
    forall i, j | 0 <= i < j < |readings|
      ensures readings[i].batchId != readings[j].batchId
    {
      assert Carries(me, mine[i], readings[i]) && Carries(me, mine[j], readings[j]);
      assert BatchIdOf(mine[i]) != BatchIdOf(mine[j]);
    }
  }

  /** Under the id of an accepted batch the ledger holds exactly the samples of the reading that queued it,
      in their order, whatever was lost, repeated or sent by others. */
  lemma BatchIsItsReading(cfg: Config, me: Identity, ch: Channel, events: seq<Event>, k: nat)
    requires Registered(cfg, me) && k < |Mine(cfg, me, Play(cfg, me, ch, START, events))|
    ensures k < |ReadingsIn(events)|
    ensures var w := Play(cfg, me, ch, START, events);
      var ledger, r := Ledger(Serve(cfg, w.arrivals).agentSamples, me.agentId), ReadingsIn(events)[k];
      BatchIdOf(Mine(cfg, me, w)[k]) == r.batchId && SamplesUnder(ledger, r.batchId) == r.samples
  {
    var mine, readings := Mine(cfg, me, Play(cfg, me, ch, START, events)), Delivered(cfg, me, ch, events);
    AcceptedAreReadings(cfg, me, ch, events);
    assert Carries(me, mine[k], readings[k]) && readings[k] == ReadingsIn(events)[k];
    LedgerIsReadings(cfg, me, ch, events);
    DeliveredIds(cfg, me, ch, events);
    UnderOwn(readings, k);
  }
}
