/** The burst scan of one feature window (features/extraction.py, `_communication_features`). */
module Bursts {
  import opened Common
  import opened Ordering
  import opened Lists
  import opened Medians

  /** A maximal run of active samples, by its first and last position. */
  ghost predicate IsBurst(active: seq<bool>, first: int, last: int) {
    && 0 <= first <= last < |active|
    && (forall k :: first <= k <= last ==> active[k])
    && (first == 0 || !active[first - 1])
    && (last == |active| - 1 || !active[last + 1])
  }

  function ActiveCount(active: seq<bool>): nat {
    if active == [] then 0 else ActiveCount(active[..|active| - 1]) + if active[|active| - 1] then 1 else 0
  }

  function TotalLength(runs: Runs): int {
    if runs == [] then 0 else TotalLength(runs[..|runs| - 1]) + runs[|runs| - 1].1 - runs[|runs| - 1].0 + 1
  }

  /** The rising edges: positions where activity starts. */
  function Rises(active: seq<bool>): nat {
    if active == [] then 0
    else
      var n := |active| - 1;
      Rises(active[..n]) + if active[n] && (n == 0 || !active[n - 1]) then 1 else 0
  }

  /** Positions i..i+k are all active. */
  ghost predicate Stretch(active: seq<bool>, i: int, k: int) {
    0 <= i && i + k <= |active| && forall j :: i <= j < i + k ==> active[j]
  }

  /** `runs` are the bursts of the first `n` samples in order, except the one still open at `n`. */
  ghost predicate Scanned(active: seq<bool>, n: int, runs: Runs, open: Option<nat>) {
    && 0 <= n <= |active|
    && (forall i :: 0 <= i < |runs| ==> IsBurst(active, runs[i].0, runs[i].1) && runs[i].1 < n)
    && (forall i, j :: 0 <= i < j < |runs| ==> runs[i].1 + 1 < runs[j].0)
    && OpenAt(active, n, open)
    && (open.Some? ==> forall i :: 0 <= i < |runs| ==> runs[i].1 + 1 < open.value)
    && (forall first, last :: IsBurst(active, first, last) && last < Settled(n, open) ==> (first, last) in runs)
  }

  ghost predicate OpenAt(active: seq<bool>, n: int, open: Option<nat>)
    requires 0 <= n <= |active|
  {
    match open
    case None => n == 0 || !active[n - 1]
    case Some(first) => first < n && (forall k :: first <= k < n ==> active[k]) && (first == 0 || !active[first - 1])
  }

  /** Bursts that end before this position are all found. */
  ghost function Settled(n: int, open: Option<nat>): int {
    if open.Some? then open.value else n
  }

  ghost predicate Tallied(active: seq<bool>, n: int, runs: Runs, open: Option<nat>)
    requires 0 <= n <= |active|
  {
    && TotalLength(runs) + (if open.Some? then n - open.value else 0) == ActiveCount(active[..n])
    && |runs| + (if open.Some? then 1 else 0) == Rises(active[..n])
  }

  lemma QuietStep(active: seq<bool>, n: nat, runs: Runs)
    requires n < |active| && Scanned(active, n, runs, None) && Tallied(active, n, runs, None) && !active[n]
    ensures Scanned(active, n + 1, runs, None) && Tallied(active, n + 1, runs, None)
  {
    assert active[..n + 1][..n] == active[..n];
    forall first, last | IsBurst(active, first, last) && last < n + 1
      ensures (first, last) in runs
    {
      assert last != n;
    }
  }

  lemma OpeningStep(active: seq<bool>, n: nat, runs: Runs)
    requires n < |active| && Scanned(active, n, runs, None) && Tallied(active, n, runs, None) && active[n]
    ensures Scanned(active, n + 1, runs, Some(n)) && Tallied(active, n + 1, runs, Some(n))
  {
    assert active[..n + 1][..n] == active[..n];
    forall i | 0 <= i < |runs|
      ensures runs[i].1 + 1 < n
    {
      assert active[runs[i].1];
    }
  }

  lemma OngoingStep(active: seq<bool>, n: nat, runs: Runs, first: nat)
    requires n < |active| && Scanned(active, n, runs, Some(first)) && Tallied(active, n, runs, Some(first)) && active[n]
    ensures Scanned(active, n + 1, runs, Some(first)) && Tallied(active, n + 1, runs, Some(first))
  {
    assert active[..n + 1][..n] == active[..n];
    assert active[n - 1];
  }

  lemma ClosingStep(active: seq<bool>, n: nat, runs: Runs, first: nat)
    requires n < |active| && Scanned(active, n, runs, Some(first)) && Tallied(active, n, runs, Some(first))
      && !active[n]
    ensures Scanned(active, n + 1, runs + [(first, n - 1)], None)
      && Tallied(active, n + 1, runs + [(first, n - 1)], None)
  {
    ClosingScan(active, n, runs, first);
    ClosingTally(active, n, runs, first);
  }

  lemma ClosingTally(active: seq<bool>, n: nat, runs: Runs, first: nat)
    requires first < n < |active| && Tallied(active, n, runs, Some(first)) && !active[n]
    ensures Tallied(active, n + 1, runs + [(first, n - 1)], None)
  {
    assert active[..n + 1][..n] == active[..n];
    assert (runs + [(first, n - 1)])[..|runs|] == runs;
  }

  lemma ClosingScan(active: seq<bool>, n: nat, runs: Runs, first: nat)
    requires n < |active| && Scanned(active, n, runs, Some(first)) && !active[n]
    ensures Scanned(active, n + 1, runs + [(first, n - 1)], None)
  {
    var runs' := runs + [(first, n - 1)];
    assert IsBurst(active, first, n - 1);
    forall f, last | IsBurst(active, f, last) && last < n + 1
      ensures (f, last) in runs'
    {
      BurstAcross(active, first, n - 1, f, last);
      if last < first { assert (f, last) in runs; } else { assert runs'[|runs|] == (f, last); }
    }
  }

  /** Two bursts are equal or apart. */
  lemma BurstAcross(active: seq<bool>, f1: int, l1: int, f2: int, l2: int)
    requires IsBurst(active, f1, l1) && IsBurst(active, f2, l2) && l2 <= l1 + 1
    ensures (f1 == f2 && l1 == l2) || l2 < f1
  {
    if f1 <= l2 {
      SharedStartsAgree(active, f1, l1, f2, l2);
      SharedEndsAgree(active, f1, l1, f2, l2);
    }
  }

  lemma SharedStartsAgree(active: seq<bool>, f1: int, l1: int, f2: int, l2: int)
    requires IsBurst(active, f1, l1) && IsBurst(active, f2, l2) && f1 <= l2 <= l1 + 1
    ensures f1 == f2
  {
    assert f1 < f2 <= l1 ==> !(f1 <= f2 - 1 <= l1);
    assert f2 < f1 ==> !(f2 <= f1 - 1 <= l2);
  }

  lemma SharedEndsAgree(active: seq<bool>, f1: int, l1: int, f2: int, l2: int)
    requires IsBurst(active, f1, l1) && IsBurst(active, f2, l2) && f1 == f2
    ensures l1 == l2
  {
    assert l1 < l2 ==> !(f2 <= l1 + 1 <= l2);
    assert l2 < l1 ==> !(f1 <= l2 + 1 <= l1);
  }

  /** Appending a quiet sample does not change the bursts. */
  lemma PaddedBurst(active: seq<bool>, first: int, last: int)
    ensures IsBurst(active + [false], first, last) <==> IsBurst(active, first, last)
  {
    var padded := active + [false];
    assert forall k :: 0 <= k < |active| ==> padded[k] == active[k];
    if IsBurst(padded, first, last) {
      assert padded[last] && last < |active|;
      assert forall k :: first <= k <= last ==> padded[k] == active[k];
    } else if IsBurst(active, first, last) {
      assert forall k :: first <= k <= last ==> padded[k] == active[k];
    }
  }

  /** The bursts of the samples: exactly the maximal runs, in order and apart; their lengths add up to
      the active samples, their number is that of the rising edges. */
  ghost predicate Decomposition(active: seq<bool>, runs: Runs) {
    && (forall i :: 0 <= i < |runs| ==> IsBurst(active, runs[i].0, runs[i].1))
    && (forall i, j :: 0 <= i < j < |runs| ==> runs[i].1 + 1 < runs[j].0)
    && (forall first: nat, last: nat :: IsBurst(active, first, last) ==> (first, last) in runs)
    && TotalLength(runs) == ActiveCount(active)
    && |runs| == Rises(active)
  }

  type Runs = seq<(nat, nat)>

  /** The scan's state after `n` samples: the bursts closed so far and the start of the open one. */
  function Scan(active: seq<bool>, n: nat): (r: (Runs, Option<nat>))
    requires n <= |active|
    ensures r.1.Some? ==> r.1.value < n
  {
    if n == 0 then ([], None)
    else
      var (runs, open) := Scan(active, n - 1);
      Advance(n - 1, active[n - 1], runs, open)
  }

  ghost predicate Progress(active: seq<bool>, n: nat, state: (Runs, Option<nat>)) {
    && n <= |active|
    && (n == 0 ==> state.1.None?)
    && Scanned(active, n, state.0, state.1)
    && Tallied(active, n, state.0, state.1)
  }

  function Advance(n: nat, now: bool, runs: Runs, open: Option<nat>): (Runs, Option<nat>)
    requires open.Some? ==> open.value < n
  {
    if now && open.None? then (runs, Some(n))
    else if !now && open.Some? then
      var last: nat := n - 1;
      (runs + [(open.value, last)], None)
    else (runs, open)
  }

  lemma ActiveAdvance(active: seq<bool>, n: nat, runs: Runs, open: Option<nat>)
    requires n < |active| && active[n] && Progress(active, n, (runs, open)) && (open.Some? ==> open.value < n)
    ensures Progress(active, n + 1, Advance(n, true, runs, open))
  {
    if open.None? { OpeningStep(active, n, runs); } else { OngoingStep(active, n, runs, open.value); }
  }

  lemma QuietAdvance(active: seq<bool>, n: nat, runs: Runs, open: Option<nat>)
    requires n < |active| && !active[n] && Progress(active, n, (runs, open)) && (open.Some? ==> open.value < n)
    ensures Progress(active, n + 1, Advance(n, false, runs, open))
  {
    if open.None? { QuietStep(active, n, runs); } else { ClosingStep(active, n, runs, open.value); }
  }

  /** What holds at the start and survives each sample holds after `n` samples. */
  lemma {:induction false} ScanInduction(active: seq<bool>, n: nat, inv: (Runs, Option<nat>, nat) -> bool)
    requires n <= |active| && inv([], None, 0)
    requires forall runs: Runs, open: Option<nat>, k: nat ::
      (k < n && inv(runs, open, k) && (open.Some? ==> open.value < k) ==>
        inv(Advance(k, active[k], runs, open).0, Advance(k, active[k], runs, open).1, k + 1))
    ensures inv(Scan(active, n).0, Scan(active, n).1, n)
  {
    if n > 0 { ScanInduction(active, n - 1, inv); }
  }

  lemma AdvanceProgresses(active: seq<bool>, n: nat, runs: Runs, open: Option<nat>)
    requires n < |active| && Progress(active, n, (runs, open)) && (open.Some? ==> open.value < n)
    ensures Progress(active, n + 1, Advance(n, active[n], runs, open))
  {
    if active[n] { ActiveAdvance(active, n, runs, open); } else { QuietAdvance(active, n, runs, open); }
  }

  lemma ScanProgresses(active: seq<bool>, n: nat)
    requires n <= |active|
    ensures Progress(active, n, Scan(active, n))
  {
    var inv := (runs: Runs, open: Option<nat>, k: nat) => Progress(active, k, (runs, open));
    forall runs: Runs, open: Option<nat>, k: nat | k < n && inv(runs, open, k) && (open.Some? ==> open.value < k)
      ensures inv(Advance(k, active[k], runs, open).0, Advance(k, active[k], runs, open).1, k + 1)
    {
      AdvanceProgresses(active, k, runs, open);
    }
    ScanInduction(active, n, inv);
  }

  lemma ScanClosed(active: seq<bool>, runs: Runs, open: Option<nat>)
    requires Scanned(active + [false], |active| + 1, runs, open)
    ensures open.None? && Scanned(active + [false], |active| + 1, runs, None)
  {
    assert !(active + [false])[|active|];
  }

  lemma PaddedRunsAreBursts(active: seq<bool>, runs: Runs)
    requires Scanned(active + [false], |active| + 1, runs, None)
    ensures forall i :: 0 <= i < |runs| ==> IsBurst(active, runs[i].0, runs[i].1)
    ensures forall first: nat, last: nat :: IsBurst(active, first, last) ==> (first, last) in runs
  {
    forall first: nat, last: nat
      ensures IsBurst(active + [false], first, last) <==> IsBurst(active, first, last)
    {
      PaddedBurst(active, first, last);
    }
  }

  lemma PaddedTallies(active: seq<bool>, runs: Runs)
    requires Tallied(active + [false], |active| + 1, runs, None)
    ensures TotalLength(runs) == ActiveCount(active) && |runs| == Rises(active)
  {
    var padded := active + [false];
    assert padded[..|padded|] == padded && padded[..|active|] == active;
  }

  /** Scanning one closing `False` beyond the samples finds exactly their bursts. */
  lemma ScanDecomposes(active: seq<bool>)
    ensures Decomposition(active, Scan(active + [false], |active| + 1).0)
  {
    ScanProgresses(active + [false], |active| + 1);
    var (runs, open) := Scan(active + [false], |active| + 1);
    ScanClosed(active, runs, open);
    PaddedRunsAreBursts(active, runs);
    PaddedTallies(active, runs);
  }

  method BurstScan(active: seq<bool>) returns (runs: Runs)
    ensures Decomposition(active, runs)
  {
    var padded := active + [false];
    runs := [];
    var start: Option<nat> := None;
    for index := 0 to |padded|
      invariant (runs, start) == Scan(padded, index)
    {
      if padded[index] && start.None? {
        start := Some(index);
      } else if !padded[index] && start.Some? {
        var last: nat := index - 1;
        runs := runs + [(start.value, last)];
        start := None;
      }
    }
    ScanDecomposes(active);
  }

  // Durations

  function Gaps(times: seq<real>): (r: seq<real>)
    ensures times != [] ==> |r| == |times| - 1 && forall i :: 0 <= i < |r| ==> r[i] == times[i + 1] - times[i]
  {
    if times == [] then [] else seq(|times| - 1, i requires 0 <= i < |times| - 1 => times[i + 1] - times[i])
  }

  /** The median distance of neighbouring samples. */
  function Spacing(times: seq<real>): real {
    if |times| > 1 then Median(Gaps(times)) else 0.0
  }

  /** The sampling interval: the median of the distances of neighbouring samples. */
  lemma SpacingExactly(times: seq<real>, interval: real)
    requires |times| > 1
    ensures Spacing(times) == interval
            <==> IsMedian(seq(|times| - 1, i requires 0 <= i < |times| - 1 => times[i + 1] - times[i]), interval)
  {
    MedianExactly(Gaps(times), interval);
    assert Gaps(times) == seq(|times| - 1, i requires 0 <= i < |times| - 1 => times[i + 1] - times[i]);
  }

  predicate Inside(times: seq<real>, run: (nat, nat)) {
    run.0 < |times| && run.1 < |times|
  }

  function DurationOf(times: seq<real>, run: (nat, nat)): (d: real)
    requires Inside(times, run)
    ensures d >= 0.0
  {
    var d := times[run.1] - times[run.0] + Spacing(times);
    if d < 0.0 then 0.0 else d
  }

  ghost predicate AllInside(times: seq<real>, runs: Runs) {
    forall i :: 0 <= i < |runs| ==> Inside(times, runs[i])
  }

  function DurationsOf(times: seq<real>, runs: Runs): (r: seq<real>)
    requires AllInside(times, runs)
    ensures |r| == |runs| && forall i :: 0 <= i < |r| ==> r[i] == DurationOf(times, runs[i])
  {
    seq(|runs|, i requires 0 <= i < |runs| => DurationOf(times, runs[i]))
  }

  /** With timestamps that never go back, a burst lasts its span and one sampling interval. */
  lemma DurationIsSpan(times: seq<real>, run: (nat, nat))
    requires Ascending(times) && Inside(times, run) && run.0 <= run.1
    ensures Spacing(times) >= 0.0
    ensures DurationOf(times, run) == times[run.1] - times[run.0] + Spacing(times)
  {
    if |times| > 1 { MedianNonNegative(Gaps(times)); }
  }

  /** The greatest of the first `n`. */
  ghost predicate GreatestOf(d: seq<real>, n: nat, maximum: real) {
    n <= |d| && maximum in d && forall k :: 0 <= k < n ==> d[k] <= maximum
  }

  method MaximumOf(d: seq<real>) returns (maximum: real)
    requires d != []
    ensures GreatestOf(d, |d|, maximum)
  {
    maximum := d[0];
    for i := 1 to |d|
      invariant GreatestOf(d, i, maximum)
    {
      if d[i] > maximum { maximum := d[i]; }
    }
  }

  /** The mean and the maximum of the burst durations, zero without bursts. */
  ghost predicate Timed(times: seq<real>, runs: Runs, average: real, maximum: real) {
    && AllInside(times, runs)
    && var d := DurationsOf(times, runs);
       if d == [] then average == 0.0 && maximum == 0.0
       else average == Total(d) / |d| as real && GreatestOf(d, |d|, maximum)
  }

  method TimeBursts(times: seq<real>, runs: Runs) returns (average: real, maximum: real)
    requires AllInside(times, runs)
    ensures Timed(times, runs, average, maximum)
  {
    var durations := DurationsOf(times, runs);
    if durations == [] { return 0.0, 0.0; }
    average := Total(durations) / |durations| as real;
    maximum := MaximumOf(durations);
  }

  // The features of a window

  /** The longest burst, by samples. */
  method LongestBurst(active: seq<bool>, runs: Runs) returns (longest: nat)
    requires Decomposition(active, runs)
    ensures exists i :: Stretch(active, i, longest)
    ensures forall i, k :: Stretch(active, i, k) ==> k <= longest
  {
    longest := 0;
    ghost var at := 0;
    for k := 0 to |runs|
      invariant Stretch(active, at, longest)
      invariant forall i :: 0 <= i < k ==> runs[i].1 - runs[i].0 + 1 <= longest
    {
      if runs[k].1 - runs[k].0 + 1 > longest {
        longest := runs[k].1 - runs[k].0 + 1;
        at := runs[k].0;
      }
    }
    forall i, k | Stretch(active, i, k)
      ensures k <= longest
    {
      if k > 0 {
        var first: nat, last: nat := Enclosing(active, i, k);
        var j :| 0 <= j < |runs| && runs[j] == (first, last);
      }
    }
  }

  datatype BurstFeatures = BurstFeatures(
    dutyCycle: real, burstCount: nat, averageDuration: real, maximumDuration: real, longest: nat, nearIdle: real)

  lemma BurstsInside(active: seq<bool>, times: seq<real>, runs: Runs)
    requires Decomposition(active, runs) && |times| == |active|
    ensures AllInside(times, runs)
  {
    forall i | 0 <= i < |runs|
      ensures Inside(times, runs[i])
    {
      assert IsBurst(active, runs[i].0, runs[i].1);
    }
  }

  /** The burst features of a window; None when there is nothing to compare. */
  method ComputeBurstFeatures(values: seq<real>, times: seq<real>, threshold: Option<real>)
    returns (r: Option<BurstFeatures>)
    requires |times| == |values|
    ensures r.None? <==> values == [] || threshold.None?
    ensures r.Some? ==>
      var active := Above(values, threshold.value);
      && r.value.dutyCycle == ActiveCount(active) as real / |values| as real
      && r.value.nearIdle == 1.0 - r.value.dutyCycle
      && r.value.burstCount == Rises(active)
      && (exists runs ::
            Decomposition(active, runs) && Timed(times, runs, r.value.averageDuration, r.value.maximumDuration))
      && (exists i :: Stretch(active, i, r.value.longest))
      && forall i, k :: Stretch(active, i, k) ==> k <= r.value.longest
  {
    if values == [] || threshold.None? { return None; }
    var active := Above(values, threshold.value);
    var runs := BurstScan(active);
    BurstsInside(active, times, runs);
    var average, maximum := TimeBursts(times, runs);
    var longest := LongestBurst(active, runs);
    var fraction := ActiveCount(active) as real / |values| as real;
    return Some(BurstFeatures(fraction, |runs|, average, maximum, longest, 1.0 - fraction));
  }

  function Above(values: seq<real>, threshold: real): (r: seq<bool>)
    ensures |r| == |values| && forall i :: 0 <= i < |r| ==> r[i] == (values[i] > threshold)
  {
    seq(|values|, i requires 0 <= i < |values| => values[i] > threshold)
  }

  /** Every active stretch lies inside a burst. */
  lemma Enclosing(active: seq<bool>, i: int, k: int) returns (first: nat, last: nat)
    requires Stretch(active, i, k) && k > 0
    ensures IsBurst(active, first, last) && first <= i && i + k - 1 <= last
  {
    first, last := i, i + k - 1;
    while first > 0 && active[first - 1]
      invariant 0 <= first <= i && forall j :: first <= j < i + k ==> active[j]
    {
      first := first - 1;
    }
    while last < |active| - 1 && active[last + 1]
      invariant i + k - 1 <= last < |active| && forall j :: first <= j <= last ==> active[j]
      decreases |active| - last
    {
      last := last + 1;
    }
  }
}
