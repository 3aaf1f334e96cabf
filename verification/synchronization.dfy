/** Sparse synchronization: offline schedules, the worker's online counters, and parameter averaging
    (adversarial.py, distributed/worker.py). */
module Synchronization {
  import opened Arithmetic

  /** The strategies that use sparse synchronization; what the seeded generator of the randomized one draws
      is any function of the step. */
  datatype Strategy =
    | PeriodicLocalSgd(localSteps: nat)
    | DilocoInspired(innerSteps: nat)
    | RandomizedSynchronization(probability: real, draw: nat -> real)

  predicate ValidStrategy(s: Strategy) {
    match s
    case PeriodicLocalSgd(k) => k > 0
    case DilocoInspired(k) => k > 0
    case RandomizedSynchronization(_, _) => true
  }

  /** `should_synchronize` for a 1-based step. */
  predicate ShouldSynchronize(s: Strategy, step: nat)
    requires ValidStrategy(s) && step >= 1
  {
    match s
    case PeriodicLocalSgd(k) => step % k == 0
    case DilocoInspired(k) => step % k == 0
    case RandomizedSynchronization(probability, draw) => draw(step) < probability
  }

  // ----- the schedule

  /** The scheduled steps among 1..n, without the final agreement. */
  function Scheduled(s: Strategy, n: nat): (steps: seq<nat>)
    requires ValidStrategy(s)
    ensures |steps| <= n
  {
    if n == 0 then []
    else if ShouldSynchronize(s, n) then Scheduled(s, n - 1) + [n] else Scheduled(s, n - 1)
  }

  lemma {:induction false} ScheduledFacts(s: Strategy, n: nat)
    requires ValidStrategy(s)
    ensures forall i :: 0 <= i < |Scheduled(s, n)| ==> 1 <= Scheduled(s, n)[i] <= n
    ensures forall i, j :: 0 <= i < j < |Scheduled(s, n)| ==> Scheduled(s, n)[i] < Scheduled(s, n)[j]
    ensures forall step: nat :: step in Scheduled(s, n) <==> 1 <= step <= n && ShouldSynchronize(s, step)
  {
    if n > 0 { ScheduledFacts(s, n - 1); }
  }

  /** `synchronization_steps` with the final agreement: strictly rising, complete, ending at the last
      completed step. */
  method SynchronizationSteps(s: Strategy, completed: nat) returns (steps: seq<nat>)
    requires ValidStrategy(s)
    ensures IsFullSchedule(s, completed, steps)
  {
    steps := [];
    for step := 1 to completed + 1
      invariant steps == Scheduled(s, step - 1)
    {
      if ShouldSynchronize(s, step) { steps := steps + [step]; }
    }
    FinalAgreement(s, completed);
    if completed > 0 && completed !in steps { steps := steps + [completed]; }
  }

  /** The schedule with the final agreement: rising, complete, ending at the last step. */
  ghost predicate IsFullSchedule(s: Strategy, completed: nat, steps: seq<nat>)
    requires ValidStrategy(s)
  {
    && (forall i, j :: 0 <= i < j < |steps| ==> steps[i] < steps[j])
    && (forall step: nat :: step in steps <==>
      1 <= step <= completed && (ShouldSynchronize(s, step) || step == completed))
    && (completed > 0 ==> steps != [] && steps[|steps| - 1] == completed)
    && |steps| == RoundCount(s, completed)
  }

  /** `synchronization_steps` as a function: the schedule, and the last step if it is not part of it. */
  function FullSchedule(s: Strategy, completed: nat): seq<nat>
    requires ValidStrategy(s)
  {
    var steps := Scheduled(s, completed);
    if completed > 0 && completed !in steps then steps + [completed] else steps
  }

  lemma LastIsScheduled(s: Strategy, n: nat)
    requires ValidStrategy(s) && n > 0
    ensures n in Scheduled(s, n) <==> ShouldSynchronize(s, n)
    ensures ShouldSynchronize(s, n) ==> Scheduled(s, n) != [] && Scheduled(s, n)[|Scheduled(s, n)| - 1] == n
  {
    ScheduledFacts(s, n);
  }

  lemma FullScheduleRises(s: Strategy, completed: nat)
    requires ValidStrategy(s)
    ensures var steps := FullSchedule(s, completed);
      forall i, j :: 0 <= i < j < |steps| ==> steps[i] < steps[j]
  {
    ScheduledFacts(s, completed);
    var steps := Scheduled(s, completed);
    if completed > 0 && completed !in steps {
      forall i | 0 <= i < |steps|
        ensures steps[i] < completed
      {
        assert steps[i] in steps;
      }
    }
  }

  lemma FullScheduleIsComplete(s: Strategy, completed: nat, step: nat)
    requires ValidStrategy(s)
    ensures step in FullSchedule(s, completed) <==>
      1 <= step <= completed && (ShouldSynchronize(s, step) || step == completed)
  {
    ScheduledFacts(s, completed);
  }

  lemma FinalAgreement(s: Strategy, completed: nat)
    requires ValidStrategy(s)
    ensures IsFullSchedule(s, completed, FullSchedule(s, completed))
  {
    FullScheduleRises(s, completed);
    forall step: nat
      ensures step in FullSchedule(s, completed) <==>
        1 <= step <= completed && (ShouldSynchronize(s, step) || step == completed)
    {
      FullScheduleIsComplete(s, completed, step);
    }
    if completed > 0 { LastIsScheduled(s, completed); }
  }

  /** Which steps a schedule holds, strategy by strategy: the multiples of the interval, or the steps whose
      draw is under the probability; and always the last step. */
  lemma ScheduleExactly(s: Strategy, completed: nat, steps: seq<nat>, step: nat)
    requires ValidStrategy(s) && IsFullSchedule(s, completed, steps)
    ensures s.PeriodicLocalSgd? ==>
      (step in steps <==> 1 <= step <= completed && (IsMultiple(step, s.localSteps) || step == completed))
    ensures s.DilocoInspired? ==>
      (step in steps <==> 1 <= step <= completed && (IsMultiple(step, s.innerSteps) || step == completed))
    ensures s.RandomizedSynchronization? ==>
      (step in steps <==> 1 <= step <= completed && (s.draw(step) < s.probability || step == completed))
  {
    match s
    case PeriodicLocalSgd(k) => MultipleExactly(step, k);
    case DilocoInspired(k) => MultipleExactly(step, k);
    case RandomizedSynchronization(_, _) =>
  }

  ghost predicate IsMultiple(n: nat, k: nat) {
    exists m: nat :: n == Times(m, k)
  }

  function Times(m: nat, k: nat): nat {
    m * k
  }

  lemma MultipleExactly(n: nat, k: nat)
    requires k > 0
    ensures IsMultiple(n, k) <==> n % k == 0
  {
    if n % k == 0 {
      assert n == Times(n / k, k);
    }
    if IsMultiple(n, k) {
      var m: nat :| n == Times(m, k);
      QuotientIs(n, k, m, 0);
    }
  }

  /** Under one seed a smaller probability only drops steps, never the last one. */
  lemma SmallerProbabilitySynchronizesLess(draw: nat -> real, p: real, q: real, completed: nat, fewer: seq<nat>,
      more: seq<nat>, step: nat)
    requires p <= q
    requires IsFullSchedule(RandomizedSynchronization(p, draw), completed, fewer)
    requires IsFullSchedule(RandomizedSynchronization(q, draw), completed, more)
    ensures step in fewer ==> step in more
  {
    ScheduleExactly(RandomizedSynchronization(p, draw), completed, fewer, step);
    ScheduleExactly(RandomizedSynchronization(q, draw), completed, more, step);
  }

  /** The number of averaging rounds of a run of n steps. */
  function RoundCount(s: Strategy, n: nat): nat
    requires ValidStrategy(s)
  {
    |Scheduled(s, n)| + if n > 0 && !ShouldSynchronize(s, n) then 1 else 0
  }

  datatype Counters = Counters(steps: nat, syncRounds: nat, communicationBytes: nat, finalRound: bool)

  lemma OneMoreRound(bytes: nat, rounds: nat)
    ensures bytes * (rounds + 1) == bytes * rounds + bytes
  {
  }

  /** The counting skeleton of the worker's training loop; the duration controller lets it run for
      `completed` steps.  Its online count agrees with the offline schedule. */
  method TrainingCounters(s: Strategy, completed: nat, parameterBytes: nat) returns (c: Counters)
    requires ValidStrategy(s)
    ensures c.steps == completed && c.syncRounds == RoundCount(s, completed)
    ensures c.communicationBytes == parameterBytes * c.syncRounds
    ensures c.finalRound <==> completed > 0 && !ShouldSynchronize(s, completed)
  {
    var step: nat, rounds: nat, bytes: nat := 0, 0, 0;
    var lastStepSynchronized := false;
    while step < completed
      invariant step <= completed && rounds == |Scheduled(s, step)| && bytes == parameterBytes * rounds
      invariant lastStepSynchronized <==> step > 0 && ShouldSynchronize(s, step)
    {
      step := step + 1;
      lastStepSynchronized := ShouldSynchronize(s, step);
      if lastStepSynchronized {
        OneMoreRound(parameterBytes, rounds);
        bytes := bytes + parameterBytes;
        rounds := rounds + 1;
      }
    }
    var finalRound := step > 0 && !lastStepSynchronized;
    if finalRound {
      OneMoreRound(parameterBytes, rounds);
      bytes := bytes + parameterBytes;
      rounds := rounds + 1;
    }
    return Counters(step, rounds, bytes, finalRound);
  }

  lemma {:induction false} PeriodicCount(s: Strategy, k: nat, n: nat)
    requires k > 0 && (s == PeriodicLocalSgd(k) || s == DilocoInspired(k))
    ensures |Scheduled(s, n)| == n / k
  {
    if n > 0 {
      PeriodicCount(s, k, n - 1);
      DivisionStep(n, k);
    }
  }

  lemma DivisionStep(n: nat, k: nat)
    requires n > 0 && k > 0
    ensures n / k == (n - 1) / k + if n % k == 0 then 1 else 0
  {
    var q, r := (n - 1) / k, (n - 1) % k;
    assert n == q * k + (r + 1);
    if r + 1 == k {
      assert n == (q + 1) * k;
      QuotientIs(n, k, q + 1, 0);
    } else {
      QuotientIs(n, k, q, r + 1);
    }
  }

  /** Interval k over n steps takes ceil(n/k) rounds. */
  lemma PeriodicRounds(s: Strategy, k: nat, n: nat)
    requires k > 0 && (s == PeriodicLocalSgd(k) || s == DilocoInspired(k))
    ensures RoundCount(s, n) == (n + k - 1) / k
  {
    PeriodicCount(s, k, n);
    CeilingDivision(n, k);
  }

  lemma CeilingDivision(n: nat, k: nat)
    requires k > 0
    ensures (n + k - 1) / k == n / k + if n % k == 0 then 0 else 1
  {
    var q, r := n / k, n % k;
    assert n == q * k + r;
    if r == 0 {
      QuotientIs(n + k - 1, k, q, k - 1);
    } else {
      assert (q + 1) * k == q * k + k;
      QuotientIs(n + k - 1, k, q + 1, r - 1);
    }
  }
}
