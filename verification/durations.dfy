/** The measurement-duration controller (duration.py) and the interval check of the launcher. */
module Durations {
  import opened Common
  import opened Arithmetic

  datatype Policy = Policy(warmup: real, minimum: Option<real>, cap: Option<int>, legacyIterations: int)

  datatype DurationError = NegativeWarmup | NonPositiveMinimum | NonPositiveCap | NonPositiveIterations | DurationUnmet

  datatype StopReason = MinimumReached | LegacyCountReached

  datatype Interval = Interval(
    startNs: int, endNs: int, measured: real,
    warmup: real, required: Option<real>, cap: Option<int>,
    iterations: nat, reason: StopReason)

  /** What the controller remembers: its policy, when measurement starts, completed iterations. */
  datatype Progress = Progress(policy: Policy, startNs: int, iterations: nat)

  function Validate(p: Policy): Option<DurationError> {
    if p.warmup < 0.0 then Some(NegativeWarmup)
    else if p.minimum.Some? && p.minimum.value <= 0.0 then Some(NonPositiveMinimum)
    else if p.cap.Some? && p.cap.value < 1 then Some(NonPositiveCap)
    else if p.legacyIterations < 1 then Some(NonPositiveIterations)
    else None
  }

  function Started(p: Policy, now: int): Progress {
    Progress(p, now + Nanoseconds(p.warmup), 0)
  }

  function Measured(startNs: int, now: int): real {
    if now < startNs then 0.0 else (now - startNs) as real / 1000000000.0
  }

  /** Has the declared minimum been measured at this reading? */
  predicate Enough(p: Policy, startNs: int, now: int)
    requires p.minimum.Some?
  {
    Measured(startNs, now) >= p.minimum.value
  }

  function Decision(c: Progress, now: int): Result<bool, DurationError> {
    if c.policy.minimum.None? then Ok(c.iterations < c.policy.legacyIterations)
    else if Enough(c.policy, c.startNs, now) && c.iterations > 0 then Ok(false)
    else if c.policy.cap.Some? && c.iterations >= c.policy.cap.value then Err(DurationUnmet)
    else Ok(true)
  }

  function Finished(c: Progress, now: int): Result<Interval, DurationError> {
    if c.policy.minimum.Some? && !Enough(c.policy, c.startNs, now) then Err(DurationUnmet)
    else
      Ok(Interval(
        c.startNs, now, Measured(c.startNs, now), c.policy.warmup, c.policy.minimum, c.policy.cap, c.iterations,
        if c.policy.minimum.Some? then MinimumReached else LegacyCountReached))
  }

  /** The launcher's check of a reported interval. */
  predicate LauncherAccepts(i: Interval) {
    && i.endNs >= i.startNs
    && i.measured >= 0.0
    && -0.000001 <= i.measured - (i.endNs - i.startNs) as real / 1000000000.0 <= 0.000001
  }

  // The controller

  class DurationController {
    const policy: Policy
    const measurementStartNs: int
    var iterationsCompleted: nat

    constructor (policy: Policy, now: int)
      requires Validate(policy).None?
      ensures State() == Started(policy, now)
    {
      this.policy := policy;
      measurementStartNs := now + Nanoseconds(policy.warmup);
      iterationsCompleted := 0;
    }

    function State(): Progress
      reads this
    {
      Progress(policy, measurementStartNs, iterationsCompleted)
    }

    /** Building a controller fails on an invalid policy, and only then. */
    static method Create(policy: Policy, now: int) returns (r: Result<DurationController, DurationError>)
      ensures r.Ok? <==>
        && policy.warmup >= 0.0 && policy.legacyIterations >= 1
        && (policy.minimum == None || policy.minimum.value > 0.0)
        && (policy.cap == None || policy.cap.value >= 1)
      ensures r.Err? ==> Validate(policy) == Some(r.error)
      ensures r.Ok? ==> fresh(r.value) && r.value.State() == Started(policy, now)
    {
      var problem := Validate(policy);
      if problem.Some? { return Err(problem.value); }
      var controller := new DurationController(policy, now);
      return Ok(controller);
    }

    method ShouldContinue(now: int) returns (r: Result<bool, DurationError>)
      ensures r == Decision(State(), now)
    {
      if policy.minimum.None? { return Ok(iterationsCompleted < policy.legacyIterations); }
      var measured := Measured(measurementStartNs, now);
      if measured >= policy.minimum.value && iterationsCompleted > 0 { return Ok(false); }
      if policy.cap.Some? && iterationsCompleted >= policy.cap.value { return Err(DurationUnmet); }
      return Ok(true);
    }

    method CompleteIteration()
      modifies this
      ensures State() == old(State()).(iterations := old(State()).iterations + 1)
    {
      iterationsCompleted := iterationsCompleted + 1;
    }

    method Finish(now: int) returns (r: Result<Interval, DurationError>)
      ensures r == Finished(State(), now)
    {
      var measured := Measured(measurementStartNs, now);
      if policy.minimum.Some? && measured < policy.minimum.value { return Err(DurationUnmet); }
      var reason := if policy.minimum.Some? then MinimumReached else LegacyCountReached;
      return Ok(Interval(
        measurementStartNs, now, measured, policy.warmup, policy.minimum, policy.cap, iterationsCompleted, reason));
    }

    /** A workload's measuring loop. `readings` are the clock values it will see, one a check. */
    method Measure(readings: seq<int>) returns (stop: Stop)
      requires State().iterations == 0
      modifies this
      ensures stop == LoopFrom(old(State()), readings, 0)
      ensures State() == old(State()).(iterations := stop.at)
    {
      var check := 0;
      while check < |readings|
        invariant check <= |readings|
        invariant State() == old(State()).(iterations := check)
        invariant LoopFrom(old(State()), readings, 0) == LoopFrom(old(State()), readings, check)
      {
        var decision := ShouldContinue(readings[check]);
        if decision.Err? { return Capped(check); }
        if !decision.value { return Exited(check); }
        CompleteIteration();
        check := check + 1;
      }
      return Running(check);
    }
  }

  // Whole measuring loops

  /** How a loop ends after `at` iterations: normally, by the cap's error, or not within the readings. */
  datatype Stop = Exited(at: nat) | Capped(at: nat) | Running(at: nat)

  /** The loop from check number `k` on, `k` iterations being complete. */
  function LoopFrom(c: Progress, readings: seq<int>, k: nat): (r: Stop)
    requires k <= |readings|
    ensures k <= r.at <= |readings| && (r.Running? <==> r.at == |readings|)
    decreases |readings| - k
  {
    if k == |readings| then Running(k)
    else
      match Decision(c.(iterations := k), readings[k])
      case Err(_) => Capped(k)
      case Ok(true) => LoopFrom(c, readings, k + 1)
      case Ok(false) => Exited(k)
  }

  /** The checks passed before the loop's end all said to go on. */
  lemma {:induction false} WentOn(c: Progress, readings: seq<int>, k: nat)
    requires k <= |readings|
    ensures var at := LoopFrom(c, readings, k).at;
      forall j: nat :: k <= j < at ==> Decision(c.(iterations := j), readings[j]) == Ok(true)
    decreases |readings| - k
  {
    if k < |readings| && Decision(c.(iterations := k), readings[k]) == Ok(true) { WentOn(c, readings, k + 1); }
  }

  /** The check that ended the loop said so. */
  lemma {:induction false} EndedBy(c: Progress, readings: seq<int>, k: nat)
    requires k <= |readings|
    ensures var stop := LoopFrom(c, readings, k);
      && (stop.Exited? ==> Decision(c.(iterations := stop.at), readings[stop.at]) == Ok(false))
      && (stop.Capped? ==> Decision(c.(iterations := stop.at), readings[stop.at]).Err?)
    decreases |readings| - k
  {
    if k < |readings| && Decision(c.(iterations := k), readings[k]) == Ok(true) { EndedBy(c, readings, k + 1); }
  }

  lemma {:induction false} ReachesEnd(c: Progress, readings: seq<int>, k: nat, at: nat)
    requires k <= at < |readings|
    requires forall j: nat :: k <= j < at ==> Decision(c.(iterations := j), readings[j]) == Ok(true)
    requires Decision(c.(iterations := at), readings[at]) != Ok(true)
    ensures LoopFrom(c, readings, k).at == at && !LoopFrom(c, readings, k).Running?
    decreases at - k
  {
    if k < at { ReachesEnd(c, readings, k + 1, at); }
  }

  /** No check from the first completed iteration up to check `k` saw the minimum. */
  ghost predicate ShortUntil(c: Progress, readings: seq<int>, k: int)
    requires c.policy.minimum.Some? && k <= |readings|
  {
    forall j :: 1 <= j < k ==> !Enough(c.policy, c.startNs, readings[j])
  }

  /** With a declared minimum the loop exits normally at check `k` exactly when that is the first check,
      after at least one iteration, that sees the minimum, and the cap allows `k` iterations. No clock
      assumption is needed. */
  lemma ExitsExactly(c: Progress, readings: seq<int>, k: nat)
    requires Validate(c.policy).None? && c.policy.minimum.Some? && k < |readings|
    ensures LoopFrom(c, readings, 0) == Exited(k) <==>
      && 1 <= k && Enough(c.policy, c.startNs, readings[k])
      && ShortUntil(c, readings, k)
      && (c.policy.cap.Some? ==> k <= c.policy.cap.value)
  {
    WentOn(c, readings, 0);
    EndedBy(c, readings, 0);
    var stop := LoopFrom(c, readings, 0);
    if stop == Exited(k) {
      assert Decision(c.(iterations := k - 1), readings[k - 1]) == Ok(true);
      forall j | 1 <= j < k
        ensures !Enough(c.policy, c.startNs, readings[j])
      {
        assert Decision(c.(iterations := j), readings[j]) == Ok(true);
      }
    }
    if 1 <= k && Enough(c.policy, c.startNs, readings[k]) && ShortUntil(c, readings, k)
       && (c.policy.cap.Some? ==> k <= c.policy.cap.value) {
      ReachesEnd(c, readings, 0, k);
    }
  }

  /** The cap's error comes exactly when the cap is used up and no check so far saw the minimum. */
  lemma CappedExactly(c: Progress, readings: seq<int>, k: nat)
    requires Validate(c.policy).None? && c.policy.minimum.Some? && k < |readings|
    ensures LoopFrom(c, readings, 0) == Capped(k) <==>
      c.policy.cap == Some(k) && ShortUntil(c, readings, k + 1)
  {
    WentOn(c, readings, 0);
    EndedBy(c, readings, 0);
    var stop := LoopFrom(c, readings, 0);
    if stop == Capped(k) {
      if k > 0 { assert Decision(c.(iterations := k - 1), readings[k - 1]) == Ok(true); }
      forall j | 1 <= j < k + 1
        ensures !Enough(c.policy, c.startNs, readings[j])
      {
        if j < k { assert Decision(c.(iterations := j), readings[j]) == Ok(true); }
      }
    }
    if c.policy.cap == Some(k) && ShortUntil(c, readings, k + 1) {
      ReachesEnd(c, readings, 0, k);
    }
  }

  /** Without a minimum the loop runs exactly the configured iterations, whatever the clock says. */
  lemma LegacyRunsItsCount(c: Progress, readings: seq<int>)
    requires Validate(c.policy).None? && c.policy.minimum.None?
    ensures LoopFrom(c, readings, 0) ==
      if c.policy.legacyIterations < |readings| then Exited(c.policy.legacyIterations) else Running(|readings|)
  {
    WentOn(c, readings, 0);
    EndedBy(c, readings, 0);
    if c.policy.legacyIterations < |readings| { ReachesEnd(c, readings, 0, c.policy.legacyIterations); }
  }

  // The reported interval

  lemma MeasuredGrows(startNs: int, now: int, later: int)
    requires now <= later
    ensures 0.0 <= Measured(startNs, now) <= Measured(startNs, later)
  {
  }

  /** With a declared minimum and a clock that does not run backwards, a loop that exits normally has its
      interval: `finish` cannot fail, the iterations are between one and the cap, the minimum is met, and
      the launcher accepts the figures. */
  lemma NormalExitYieldsAcceptedInterval(c: Progress, readings: seq<int>, k: nat, finishedAt: int)
    requires Validate(c.policy).None? && c.policy.minimum.Some? && k < |readings|
    requires LoopFrom(c, readings, 0) == Exited(k)
    requires readings[k] <= finishedAt
    ensures var r := Finished(c.(iterations := k), finishedAt);
      && r.Ok?
      && 1 <= r.value.iterations && (c.policy.cap.Some? ==> r.value.iterations <= c.policy.cap.value)
      && r.value.measured >= c.policy.minimum.value
      && r.value.reason == MinimumReached
      && LauncherAccepts(r.value)
  {
    ExitsExactly(c, readings, k);
    MeasuredGrows(c.startNs, readings[k], finishedAt);
  }

  /** A finished interval satisfies the launcher exactly when it does not end before it starts; with a
      declared minimum that is always so. */
  lemma AcceptedIffOrdered(c: Progress, now: int)
    requires Validate(c.policy).None? && Finished(c, now).Ok?
    ensures LauncherAccepts(Finished(c, now).value) <==> c.startNs <= now
    ensures c.policy.minimum.Some? ==> LauncherAccepts(Finished(c, now).value)
  {
  }

  /** Without a minimum, a warm-up longer than the whole loop yields an interval the launcher refuses. */
  lemma LegacyIntervalMayRunBackwards()
    ensures var p := Policy(2.0, None, None, 1);
      && Validate(p).None?
      && LoopFrom(Started(p, 0), [0, 5], 0) == Exited(1)
      && Finished(Started(p, 0).(iterations := 1), 6).Ok?
      && !LauncherAccepts(Finished(Started(p, 0).(iterations := 1), 6).value)
  {
    var p := Policy(2.0, None, None, 1);
    LegacyRunsItsCount(Started(p, 0), [0, 5]);
    assert Nanoseconds(2.0) == 2000000000 by { assert 2.0 * 1000000000.0 == 2000000000.0; }
  }

  // The controller's answers, in clock readings

  /** By `now` the measurement has lasted the minimum: the warm-up, without its fraction of a nanosecond, and
      then the minimum have passed since the creation. */
  predicate MinimumPassed(p: Policy, warmupNs: int, created: int, now: int)
    requires p.minimum.Some?
  {
    (now - created - warmupNs) as real >= p.minimum.value * 1000000000.0
  }

  predicate IsWarmup(p: Policy, warmupNs: int) {
    warmupNs as real <= p.warmup * 1000000000.0 < warmupNs as real + 1.0
  }

  lemma EnoughExactly(p: Policy, warmupNs: int, created: int, now: int)
    requires Validate(p).None? && p.minimum.Some? && IsWarmup(p, warmupNs)
    ensures Enough(p, Started(p, created).startNs, now) <==> MinimumPassed(p, warmupNs, created, now)
  {
    assert warmupNs == Nanoseconds(p.warmup);
  }

  /** With a minimum the loop ends normally exactly at the first check after an iteration by which the minimum
      has passed, if the cap allows as many iterations. */
  lemma ExitsOnceMinimumPassed(p: Policy, warmupNs: int, created: int, readings: seq<int>, k: nat)
    requires Validate(p).None? && p.minimum.Some? && IsWarmup(p, warmupNs) && k < |readings|
    ensures LoopFrom(Started(p, created), readings, 0) == Exited(k) <==>
      && 1 <= k && MinimumPassed(p, warmupNs, created, readings[k])
      && (forall j :: 1 <= j < k ==> !MinimumPassed(p, warmupNs, created, readings[j]))
      && (p.cap.Some? ==> k <= p.cap.value)
  {
    ExitsExactly(Started(p, created), readings, k);
    forall j | 0 <= j < |readings|
      ensures Enough(p, Started(p, created).startNs, readings[j]) <==> MinimumPassed(p, warmupNs, created, readings[j])
    {
      EnoughExactly(p, warmupNs, created, readings[j]);
    }
  }

  /** Finishing fails exactly before the declared minimum has passed; otherwise the interval runs from the end
      of the warm-up to the reading, and repeats the policy and the count. */
  lemma FinishedExactly(p: Policy, warmupNs: int, created: int, iterations: nat, now: int)
    requires Validate(p).None? && IsWarmup(p, warmupNs)
    ensures var r := Finished(Started(p, created).(iterations := iterations), now);
      && (r.Err? <==> p.minimum.Some? && !MinimumPassed(p, warmupNs, created, now))
      && (r.Ok? ==>
            && r.value.startNs == created + warmupNs && r.value.endNs == now
            && (if now < created + warmupNs then r.value.measured == 0.0
                else r.value.measured * 1000000000.0 == (now - created - warmupNs) as real)
            && r.value.warmup == p.warmup && r.value.required == p.minimum && r.value.cap == p.cap
            && r.value.iterations == iterations && (r.value.reason == MinimumReached <==> p.minimum.Some?))
  {
    if p.minimum.Some? { EnoughExactly(p, warmupNs, created, now); }
    assert warmupNs == Nanoseconds(p.warmup);
  }

  // How long a loop can take

  /** Every iteration takes at least `d` nanoseconds, counted from the controller's creation. */
  ghost predicate Paced(created: int, readings: seq<int>, d: int) {
    && (|readings| > 0 ==> created <= readings[0])
    && forall j :: 0 <= j < |readings| - 1 ==> readings[j] + d <= readings[j + 1]
  }

  lemma {:induction false} PacedReadings(created: int, readings: seq<int>, d: int, k: nat)
    requires Paced(created, readings, d) && k < |readings|
    ensures created + k * d <= readings[k]
  {
    if k > 0 {
      PacedReadings(created, readings, d, k - 1);
      assert readings[k - 1] + d <= readings[k];
      assert k * d == (k - 1) * d + d;
    }
  }

  /** ceil((warmup + minimum) / d), in nanoseconds. */
  function IterationBound(p: Policy, d: int): int
    requires p.minimum.Some? && d > 0
  {
    var ratio := (p.warmup + p.minimum.value) * 1000000000.0 / d as real;
    -((-ratio).Floor)
  }

  lemma CeilingIs(x: real, k: int)
    ensures k <= -((-x).Floor) <==> (k - 1) as real < x
  {
  }

  lemma Spans(x: real, d: int, k: int)
    requires d > 0
    ensures k as real < x / d as real <==> (k * d) as real < x
  {
    var y := x / d as real;
    assert y * d as real == x;
    assert (k * d) as real == k as real * d as real;
    if k as real < y { Scaled(k as real, y, d as real); }
    if k as real >= y { ScaledWeakly(y, k as real, d as real); }
  }

  lemma Scaled(x: real, y: real, d: real)
    requires x < y && d > 0.0
    ensures x * d < y * d
  {
  }

  lemma ScaledWeakly(x: real, y: real, d: real)
    requires x <= y && d > 0.0
    ensures x * d <= y * d
  {
  }

  /** Being below the bound means the first `k - 1` iterations fit strictly into warm-up and minimum. */
  lemma WithinBound(p: Policy, d: int, k: int)
    requires p.minimum.Some? && d > 0
    ensures k <= IterationBound(p, d) <==> ((k - 1) * d) as real < (p.warmup + p.minimum.value) * 1000000000.0
  {
    var total := (p.warmup + p.minimum.value) * 1000000000.0;
    CeilingIs(total / d as real, k);
    Spans(total, d, k - 1);
  }

  lemma WarmupNotRoundedUp(p: Policy)
    requires p.warmup >= 0.0
    ensures 0 <= Nanoseconds(p.warmup) && Nanoseconds(p.warmup) as real <= p.warmup * 1000000000.0
  {
  }

  /** A reading that falls short of the minimum lies within warm-up and minimum of the creation. */
  lemma ShortReading(p: Policy, created: int, now: int)
    requires Validate(p).None? && p.minimum.Some? && !Enough(p, Started(p, created).startNs, now)
    ensures (now - created) as real < (p.warmup + p.minimum.value) * 1000000000.0
  {
    WarmupNotRoundedUp(p);
    var start := Started(p, created).startNs;
    if now >= start {
      assert (now - start) as real < p.minimum.value * 1000000000.0;
    } else {
      assert p.minimum.value * 1000000000.0 > 0.0;
    }
  }

  /** If every iteration takes at least `d` nanoseconds, no check beyond the bound is still short. */
  lemma ShortChecksAreEarly(p: Policy, created: int, readings: seq<int>, d: int, k: nat)
    requires Validate(p).None? && p.minimum.Some? && d > 0
    requires Paced(created, readings, d) && k < |readings|
    requires !Enough(p, Started(p, created).startNs, readings[k])
    ensures k + 1 <= IterationBound(p, d)
  {
    PacedReadings(created, readings, d, k);
    ShortReading(p, created, readings[k]);
    WithinBound(p, d, k + 1);
  }

  lemma BoundIsPositive(p: Policy, d: int)
    requires Validate(p).None? && p.minimum.Some? && d > 0
    ensures IterationBound(p, d) >= 1
  {
    WithinBound(p, d, 1);
    assert p.warmup + p.minimum.value > 0.0;
  }

  /** If every iteration takes at least `d` nanoseconds the loop never goes on beyond
      ceil((warmup + minimum) / d) iterations: it ends by then, and normally unless a smaller cap strikes. */
  lemma IterationsAreBounded(p: Policy, created: int, readings: seq<int>, d: int)
    requires Validate(p).None? && p.minimum.Some? && d > 0
    requires Paced(created, readings, d)
    ensures var stop := LoopFrom(Started(p, created), readings, 0);
      && stop.at <= IterationBound(p, d)
      && (|readings| > IterationBound(p, d) ==> !stop.Running?)
      && (stop.Capped? ==> p.cap.Some? && stop.at == p.cap.value < IterationBound(p, d))
  {
    var c := Started(p, created);
    var stop := LoopFrom(c, readings, 0);
    BoundIsPositive(p, d);
    WentOn(c, readings, 0);
    if stop.at > 1 {
      assert Decision(c.(iterations := stop.at - 1), readings[stop.at - 1]) == Ok(true);
      ShortChecksAreEarly(p, created, readings, d, stop.at - 1);
    }
    if stop.Capped? {
      CappedExactly(c, readings, stop.at);
      ShortChecksAreEarly(p, created, readings, d, stop.at);
    }
  }
}
