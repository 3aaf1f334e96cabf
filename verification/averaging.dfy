/** The scalar model of local updates and parameter averaging (adversarial.py,
    `simulate_parameter_averaging`), over exact reals. */
module Averaging {
  import opened Common
  import opened Ordering

  function Add(s: seq<real>, t: seq<real>): (r: seq<real>)
    requires |s| == |t|
    ensures |r| == |s| && forall i :: 0 <= i < |r| ==> r[i] == s[i] + t[i]
  {
    seq(|s|, i requires 0 <= i < |s| => s[i] + t[i])
  }

  function Constant(x: real, n: nat): (r: seq<real>)
    ensures |r| == n && forall i :: 0 <= i < n ==> r[i] == x
  {
    seq(n, _ => x)
  }

  function Average(s: seq<real>): real
    requires s != []
  {
    Total(s) / |s| as real
  }

  datatype SimulationError = TooFewRanks | UpdateCountMismatch(step: nat) | UnknownSteps

  /** All update rows have one entry per rank. */
  ghost predicate Rectangular(n: nat, updates: seq<seq<real>>) {
    forall k :: 0 <= k < |updates| ==> |updates[k]| == n
  }

  /** The rank states after the first k steps. */
  function StatesAfter(initial: seq<real>, updates: seq<seq<real>>, schedule: set<int>, k: nat): (r: seq<real>)
    requires |initial| >= 2 && k <= |updates| && Rectangular(|initial|, updates)
    ensures |r| == |initial|
  {
    if k == 0 then initial
    else
      var moved := Add(StatesAfter(initial, updates, schedule, k - 1), updates[k - 1]);
      if k in schedule then Constant(Average(moved), |initial|) else moved
  }

  /** `simulate_parameter_averaging`. */
  method Simulate(initial: seq<real>, updates: seq<seq<real>>, schedule: set<int>)
    returns (r: Result<seq<seq<real>>, SimulationError>)
    ensures r.Ok? <==>
      |initial| >= 2 && Rectangular(|initial|, updates) && forall step :: step in schedule ==> 1 <= step <= |updates|
    ensures r.Ok? ==> |r.value| == |updates|
    ensures r.Ok? ==> forall k :: 0 <= k < |updates| ==> r.value[k] == StatesAfter(initial, updates, schedule, k + 1)
    ensures r == Err(TooFewRanks) <==> |initial| < 2
    ensures r == Err(UnknownSteps) ==>
      Rectangular(|initial|, updates) && exists step :: step in schedule && !(1 <= step <= |updates|)
  {
    if |initial| < 2 { return Err(TooFewRanks); }
    var states := initial;
    var history: seq<seq<real>> := [];
    for step := 1 to |updates| + 1
      invariant |states| == |initial| && |history| == step - 1
      invariant Rectangular(|initial|, updates[..step - 1])
      invariant states == StatesAfter(initial, updates[..step - 1], schedule, step - 1)
      invariant forall k :: 0 <= k < step - 1 ==>
        history[k] == StatesAfter(initial, updates[..step - 1], schedule, k + 1)
    {
      var row := updates[step - 1];
      if |row| != |states| { return Err(UpdateCountMismatch(step)); }
      assert updates[..step] == updates[..step - 1] + [row];
      forall k: nat | k < step
        ensures StatesAfter(initial, updates[..step], schedule, k)
                == StatesAfter(initial, updates[..step - 1], schedule, k)
      {
        PrefixStates(initial, updates[..step - 1], [row], schedule, k);
      }
      states := Add(states, row);
      if step in schedule {
        var average := Total(states) / |states| as real;
        states := Constant(average, |states|);
      }
      history := history + [states];
    }
    assert updates[..|updates|] == updates;
    if step :| step in schedule && !(1 <= step <= |updates|) { return Err(UnknownSteps); }
    return Ok(history);
  }

  lemma {:induction false} PrefixStates(initial: seq<real>, updates: seq<seq<real>>, more: seq<seq<real>>,
      schedule: set<int>, k: nat)
    requires |initial| >= 2 && k <= |updates| && Rectangular(|initial|, updates)
      && Rectangular(|initial|, updates + more)
    ensures StatesAfter(initial, updates + more, schedule, k) == StatesAfter(initial, updates, schedule, k)
  {
    if k > 0 { PrefixStates(initial, updates, more, schedule, k - 1); }
  }

  // ----- conservation

  lemma {:induction false} TotalAdd(s: seq<real>, t: seq<real>)
    requires |s| == |t|
    ensures Total(Add(s, t)) == Total(s) + Total(t)
  {
    if s != [] {
      var n := |s| - 1;
      TotalAdd(s[..n], t[..n]);
      assert Add(s, t)[..n] == Add(s[..n], t[..n]);
    }
  }

  lemma {:induction false} TotalConstant(x: real, n: nat)
    ensures Total(Constant(x, n)) == x * n as real
  {
    if n > 0 {
      TotalConstant(x, n - 1);
      assert Constant(x, n)[..n - 1] == Constant(x, n - 1);
      assert x * n as real == x * (n - 1) as real + x;
    }
  }

  function TotalUpdate(updates: seq<seq<real>>, k: nat): real
    requires k <= |updates|
  {
    if k == 0 then 0.0 else TotalUpdate(updates, k - 1) + Total(updates[k - 1])
  }

  /** Averaging moves nothing in or out: the sum of the states is the initial sum plus all updates. */
  lemma {:induction false} TotalIsConserved(initial: seq<real>, updates: seq<seq<real>>, schedule: set<int>, k: nat)
    requires |initial| >= 2 && k <= |updates| && Rectangular(|initial|, updates)
    ensures Total(StatesAfter(initial, updates, schedule, k)) == Total(initial) + TotalUpdate(updates, k)
  {
    if k > 0 {
      TotalIsConserved(initial, updates, schedule, k - 1);
      var before := StatesAfter(initial, updates, schedule, k - 1);
      var moved := Add(before, updates[k - 1]);
      TotalAdd(before, updates[k - 1]);
      AveragingKeepsTotal(moved);
    }
  }

  lemma AveragingKeepsTotal(s: seq<real>)
    requires s != []
    ensures Total(Constant(Average(s), |s|)) == Total(s)
  {
    TotalConstant(Average(s), |s|);
    assert Total(s) / |s| as real * |s| as real == Total(s);
  }

  // ----- agreement and spread

  function Greatest(s: seq<real>): (m: real)
    requires s != []
    ensures m in s && forall i :: 0 <= i < |s| ==> s[i] <= m
  {
    if |s| == 1 then s[0]
    else
      var m := Greatest(s[..|s| - 1]);
      assert m in s[..|s| - 1] && s == s[..|s| - 1] + [s[|s| - 1]];
      if m < s[|s| - 1] then s[|s| - 1] else m
  }

  function Least(s: seq<real>): (m: real)
    requires s != []
    ensures m in s && forall i :: 0 <= i < |s| ==> m <= s[i]
  {
    if |s| == 1 then s[0]
    else
      var m := Least(s[..|s| - 1]);
      assert m in s[..|s| - 1] && s == s[..|s| - 1] + [s[|s| - 1]];
      if s[|s| - 1] < m then s[|s| - 1] else m
  }

  /** How far the ranks are apart. */
  function Spread(s: seq<real>): (d: real)
    requires s != []
    ensures d >= 0.0
  {
    assert Least(s) <= Greatest(s);
    Greatest(s) - Least(s)
  }

  lemma SpreadAdd(s: seq<real>, t: seq<real>)
    requires |s| == |t| && s != []
    ensures Spread(Add(s, t)) <= Spread(s) + Spread(t)
  {
    var sum := Add(s, t);
    var i :| 0 <= i < |sum| && sum[i] == Greatest(sum);
    var j :| 0 <= j < |sum| && sum[j] == Least(sum);
    assert s[i] <= Greatest(s) && t[i] <= Greatest(t) && Least(s) <= s[j] && Least(t) <= t[j];
  }

  lemma SpreadConstant(x: real, n: nat)
    requires n > 0
    ensures Spread(Constant(x, n)) == 0.0
  {
  }

  /** The update spread accumulated since the last scheduled step, on top of the initial spread before
      the first one. */
  function Drift(initial: seq<real>, updates: seq<seq<real>>, schedule: set<int>, k: nat): real
    requires |initial| >= 2 && k <= |updates| && Rectangular(|initial|, updates)
  {
    if k == 0 then Spread(initial)
    else if k in schedule then 0.0
    else Drift(initial, updates, schedule, k - 1) + Spread(updates[k - 1])
  }

  /** A bound that each step respects, whatever it is a bound of. */
  lemma {:induction false} DriftAccumulates(initial: seq<real>, updates: seq<seq<real>>, schedule: set<int>, k: nat,
      spread: nat -> real)
    requires |initial| >= 2 && k <= |updates| && Rectangular(|initial|, updates)
    requires spread(0) <= Spread(initial)
    requires forall j: nat :: 0 < j <= k ==> SpreadBounded(updates, schedule, j, spread(j - 1), spread(j))
    ensures spread(k) <= Drift(initial, updates, schedule, k)
  {
    if k > 0 { DriftAccumulates(initial, updates, schedule, k - 1, spread); }
  }

  function SpreadAt(initial: seq<real>, updates: seq<seq<real>>, schedule: set<int>, k: nat): real
    requires |initial| >= 2 && Rectangular(|initial|, updates)
  {
    if k <= |updates| then Spread(StatesAfter(initial, updates, schedule, k)) else 0.0
  }

  /** The ranks never drift apart further than their updates since the last synchronization did. */
  lemma {:induction false} SpreadWithinDrift(initial: seq<real>, updates: seq<seq<real>>, schedule: set<int>, k: nat)
    requires |initial| >= 2 && k <= |updates| && Rectangular(|initial|, updates)
    ensures Spread(StatesAfter(initial, updates, schedule, k)) <= Drift(initial, updates, schedule, k)
  {
    forall j: nat | 0 < j <= k
      ensures SpreadBounded(updates, schedule, j, SpreadAt(initial, updates, schedule, j - 1),
        SpreadAt(initial, updates, schedule, j))
    {
      SpreadAfterStep(initial, updates, schedule, j);
    }
    DriftAccumulates(initial, updates, schedule, k, (j: nat) => SpreadAt(initial, updates, schedule, j));
  }

  /** What one step may do to a spread. */
  predicate SpreadBounded(updates: seq<seq<real>>, schedule: set<int>, k: nat, before: real, after: real)
    requires 0 < k <= |updates| && updates[k - 1] != []
  {
    after <= if k in schedule then 0.0 else before + Spread(updates[k - 1])
  }

  lemma SpreadAfterStep(initial: seq<real>, updates: seq<seq<real>>, schedule: set<int>, k: nat)
    requires |initial| >= 2 && 0 < k <= |updates| && Rectangular(|initial|, updates)
    ensures SpreadBounded(updates, schedule, k, SpreadAt(initial, updates, schedule, k - 1),
      SpreadAt(initial, updates, schedule, k))
  {
    StatesStep(initial, updates, schedule, k);
    StepSpread(StatesAfter(initial, updates, schedule, k - 1), updates[k - 1]);
  }

  lemma StatesStep(initial: seq<real>, updates: seq<seq<real>>, schedule: set<int>, k: nat)
    requires |initial| >= 2 && 0 < k <= |updates| && Rectangular(|initial|, updates)
    ensures var moved := Add(StatesAfter(initial, updates, schedule, k - 1), updates[k - 1]);
      StatesAfter(initial, updates, schedule, k) == if k in schedule then Constant(Average(moved), |initial|) else moved
  {
  }

  lemma StepSpread(states: seq<real>, row: seq<real>)
    requires |states| == |row| && states != []
    ensures Spread(Add(states, row)) <= Spread(states) + Spread(row)
    ensures Spread(Constant(Average(Add(states, row)), |states|)) == 0.0
  {
    SpreadAdd(states, row);
    SpreadConstant(Average(Add(states, row)), |states|);
  }

  /** At every scheduled step all ranks hold the mean of everything contributed so far. */
  lemma AgreementAtScheduledSteps(initial: seq<real>, updates: seq<seq<real>>, schedule: set<int>, k: nat, rank: nat)
    requires |initial| >= 2 && 1 <= k <= |updates| && Rectangular(|initial|, updates) && k in schedule
      && rank < |initial|
    ensures StatesAfter(initial, updates, schedule, k)[rank]
            == (Total(initial) + TotalUpdate(updates, k)) / |initial| as real
  {
    TotalIsConserved(initial, updates, schedule, k - 1);
    var before := StatesAfter(initial, updates, schedule, k - 1);
    TotalAdd(before, updates[k - 1]);
    assert StatesAfter(initial, updates, schedule, k) == Constant(Average(Add(before, updates[k - 1])), |initial|);
    SameQuotient(Total(Add(before, updates[k - 1])), Total(initial) + TotalUpdate(updates, k), |initial|);
  }

  /** The sum of the rank's own updates after step `from`, up to step `to`. */
  function OwnUpdates(updates: seq<seq<real>>, rank: nat, from: nat, to: nat): real
    requires from <= to <= |updates| && forall k :: 0 <= k < |updates| ==> rank < |updates[k]|
  {
    if from == to then 0.0 else OwnUpdates(updates, rank, from, to - 1) + updates[to - 1][rank]
  }

  /** Between synchronizations every rank only adds its own updates. */
  lemma {:induction false} RanksRunAlone(initial: seq<real>, updates: seq<seq<real>>, schedule: set<int>, from: nat,
      to: nat, rank: nat)
    requires |initial| >= 2 && from <= to <= |updates| && Rectangular(|initial|, updates) && rank < |initial|
    requires forall k :: from < k <= to ==> k !in schedule
    ensures StatesAfter(initial, updates, schedule, to)[rank]
            == StatesAfter(initial, updates, schedule, from)[rank] + OwnUpdates(updates, rank, from, to)
  {
    if from < to { RanksRunAlone(initial, updates, schedule, from, to - 1, rank); }
  }

  /** The last scheduled step up to `k`; zero if there is none. */
  function LastScheduled(schedule: set<int>, k: nat): (last: nat)
    ensures last <= k && (last == 0 || last in schedule) && forall j :: last < j <= k ==> j !in schedule
  {
    if k == 0 || k in schedule then k else LastScheduled(schedule, k - 1)
  }

  /** The state of a rank in closed form: the mean of everything contributed up to the last synchronization
      (before the first one, its own initial state), and its own updates since. */
  lemma StateInClosedForm(initial: seq<real>, updates: seq<seq<real>>, schedule: set<int>, k: nat, rank: nat)
    requires |initial| >= 2 && k <= |updates| && Rectangular(|initial|, updates) && rank < |initial|
    ensures var last := LastScheduled(schedule, k);
      var base := if last == 0 then initial[rank]
                  else (Total(initial) + TotalUpdate(updates, last)) / |initial| as real;
      StatesAfter(initial, updates, schedule, k)[rank] == base + OwnUpdates(updates, rank, last, k)
  {
    var last := LastScheduled(schedule, k);
    RanksRunAlone(initial, updates, schedule, last, k, rank);
    if last > 0 { AgreementAtScheduledSteps(initial, updates, schedule, last, rank); }
  }

  lemma SameQuotient(x: real, y: real, n: nat)
    requires x == y && n > 0
    ensures x / n as real == y / n as real
  {
  }
}
