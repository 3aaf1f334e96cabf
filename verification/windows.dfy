/** Sliding windows and their agreement with the coverage gate (features/extraction.py). */
module Windows {
  import opened Common
  import opened Arithmetic

  datatype Manifest = Manifest(measurementStart: Option<int>, measurementEnd: Option<int>, warmupSeconds: real)

  function Later(x: int, y: int): int { if x < y then y else x }
  function Earlier(x: int, y: int): int { if x < y then x else y }

  datatype Interval = Interval(start: int, end: int)

  /** The usable interval of the coverage gate; `commonLast` is the last instant both GPUs sampled. */
  function GateInterval(m: Manifest, commonStart: int, commonLast: int, excludeStartup: bool): Interval {
    if !excludeStartup then Interval(commonStart, commonLast)
    else Interval(
      if m.measurementStart.Some? then Later(commonStart, m.measurementStart.value)
      else commonStart + Nanoseconds(m.warmupSeconds),
      if m.measurementEnd.Some? then Earlier(commonLast, m.measurementEnd.value) else commonLast)
  }

  /** The interval the window loop works on, with an exclusive end. */
  function ExtractionInterval(m: Manifest, commonStart: int, commonLast: int, excludeStartup: bool): Interval {
    var commonEnd := commonLast + 1;
    if !excludeStartup then Interval(commonStart, commonEnd)
    else Interval(
      if m.measurementStart.Some? then Later(commonStart, m.measurementStart.value)
      else commonStart + Nanoseconds(m.warmupSeconds),
      if m.measurementEnd.Some? then Earlier(commonEnd, m.measurementEnd.value + 1) else commonEnd)
  }

  /** The gate's two interval checks for the shortest configured window. */
  predicate GatePasses(m: Manifest, commonStart: int, commonLast: int, excludeStartup: bool, minimumWindow: real) {
    var i := GateInterval(m, commonStart, commonLast, excludeStartup);
    commonStart < commonLast
    && (if i.end < i.start then 0.0 else (i.end - i.start) as real / 1000000000.0) >= minimumWindow
  }

  function StrideNs(windowNs: int, fraction: real): int {
    Later(1, Truncate(windowNs as real * fraction))
  }

  /** How many windows fit. */
  function WindowCount(start: int, end: int, windowNs: int, strideNs: int): nat
    requires strideNs >= 1
  {
    if start + windowNs <= end then (end - start - windowNs) / strideNs + 1 else 0
  }

  function WindowAt(start: int, windowNs: int, strideNs: int, i: int): Interval {
    Interval(start + i * strideNs, start + i * strideNs + windowNs)
  }

  datatype WindowError = BadStrideFraction | BadWindow

  lemma OneMoreStride(n: int, strideNs: int)
    ensures (n + 1) * strideNs == n * strideNs + strideNs
  {
  }

  /** `n` windows that fit, and one more that does not, are all there are. */
  lemma AllTried(start: int, end: int, windowNs: int, strideNs: int, n: nat)
    requires strideNs >= 1 && end < start + n * strideNs + windowNs
    requires n > 0 ==> start + n * strideNs - strideNs + windowNs <= end
    ensures n == WindowCount(start, end, windowNs, strideNs)
  {
    if n > 0 {
      var room, full := end - start - windowNs, (n - 1) * strideNs;
      OneMoreStride(n - 1, strideNs);
      assert full >= 0;
      QuotientIs(room, strideNs, n - 1, room - full);
    }
  }

  /** Exactly the windows that fit the interval, in order. */
  ghost predicate Tried(interval: Interval, windowSeconds: real, strideFraction: real, windows: seq<Interval>) {
    var w := Nanoseconds(windowSeconds);
    var s := StrideNs(w, strideFraction);
    && |windows| == WindowCount(interval.start, interval.end, w, s)
    && forall i :: 0 <= i < |windows| ==> windows[i] == WindowAt(interval.start, w, s, i)
  }

  /** The window loop for one length: which windows it tries. */
  method TryWindows(interval: Interval, windowSeconds: real, strideFraction: real) returns (tried: seq<Interval>)
    requires windowSeconds > 0.0 && 0.0 < strideFraction <= 1.0
    ensures Tried(interval, windowSeconds, strideFraction, tried)
  {
    var windowNs := Nanoseconds(windowSeconds);
    var strideNs := StrideNs(windowNs, strideFraction);
    var windowStart := interval.start;
    tried := [];
    while windowStart + windowNs <= interval.end
      invariant windowStart == interval.start + |tried| * strideNs
      invariant forall i :: 0 <= i < |tried| ==> tried[i] == WindowAt(interval.start, windowNs, strideNs, i)
      invariant tried == [] || windowStart - strideNs + windowNs <= interval.end
      decreases interval.end - windowStart
    {
      OneMoreStride(|tried|, strideNs);
      tried := tried + [Interval(windowStart, windowStart + windowNs)];
      windowStart := windowStart + strideNs;
    }
    AllTried(interval.start, interval.end, windowNs, strideNs, |tried|);
  }

  // From samples to windows

  datatype Stamp = Stamp(gpu: int, monotonicNs: int)

  function StampsOf(samples: seq<Stamp>, gpu: int): seq<int> {
    if samples == [] then []
    else
      var init, last := StampsOf(samples[..|samples| - 1], gpu), samples[|samples| - 1];
      if last.gpu == gpu then init + [last.monotonicNs] else init
  }

  function Gpus(samples: seq<Stamp>): set<int> {
    set s | s in samples :: s.gpu
  }

  lemma {:induction false} PresentGpu(samples: seq<Stamp>, gpu: int)
    ensures StampsOf(samples, gpu) != [] <==> gpu in Gpus(samples)
  {
    if samples != [] {
      var init, last := samples[..|samples| - 1], samples[|samples| - 1];
      PresentGpu(init, gpu);
      assert samples == init + [last];
    }
  }

  function First(stamps: seq<int>): (t: int)
    requires stamps != []
    ensures t in stamps && forall i :: 0 <= i < |stamps| ==> t <= stamps[i]
  {
    if |stamps| == 1 then stamps[0]
    else
      var t := First(stamps[..|stamps| - 1]);
      assert stamps == stamps[..|stamps| - 1] + [stamps[|stamps| - 1]];
      Earlier(t, stamps[|stamps| - 1])
  }

  function Last(stamps: seq<int>): (t: int)
    requires stamps != []
    ensures t in stamps && forall i :: 0 <= i < |stamps| ==> stamps[i] <= t
  {
    if |stamps| == 1 then stamps[0]
    else
      var t := Last(stamps[..|stamps| - 1]);
      assert stamps == stamps[..|stamps| - 1] + [stamps[|stamps| - 1]];
      Later(t, stamps[|stamps| - 1])
  }

  /** The first instant by which both GPUs were sampled. */
  function CommonStart(samples: seq<Stamp>): int
    requires Gpus(samples) == {0, 1}
  {
    PresentGpu(samples, 0);
    PresentGpu(samples, 1);
    Later(First(StampsOf(samples, 0)), First(StampsOf(samples, 1)))
  }

  /** The last instant from which on both GPUs were sampled. */
  function CommonLast(samples: seq<Stamp>): int
    requires Gpus(samples) == {0, 1}
  {
    PresentGpu(samples, 0);
    PresentGpu(samples, 1);
    Earlier(Last(StampsOf(samples, 0)), Last(StampsOf(samples, 1)))
  }

  /** The interval over which both GPUs were sampled, cut to the measurement. */
  function CommonInterval(m: Manifest, samples: seq<Stamp>, excludeStartup: bool): Interval
    requires Gpus(samples) == {0, 1}
  {
    ExtractionInterval(m, CommonStart(samples), CommonLast(samples), excludeStartup)
  }

  /** The windows `extract_run_features` tries for every configured length. */
  method RunWindows(m: Manifest, samples: seq<Stamp>, lengths: seq<real>, strideFraction: real, excludeStartup: bool)
    returns (r: Result<seq<seq<Interval>>, WindowError>)
    ensures r == Err(BadStrideFraction) <==> !(0.0 < strideFraction <= 1.0)
    ensures r == Err(BadWindow) <==>
      0.0 < strideFraction <= 1.0 && (lengths == [] || exists i :: 0 <= i < |lengths| && lengths[i] <= 0.0)
    ensures r.Ok? && Gpus(samples) != {0, 1} ==> r.value == []
    ensures r.Ok? && Gpus(samples) == {0, 1} ==> |r.value| == |lengths|
    ensures r.Ok? && Gpus(samples) == {0, 1} ==> forall i :: 0 <= i < |lengths| ==>
      Tried(CommonInterval(m, samples, excludeStartup), lengths[i], strideFraction, r.value[i])
  {
    if !(0.0 < strideFraction <= 1.0) { return Err(BadStrideFraction); }
    if lengths == [] || exists i :: 0 <= i < |lengths| && lengths[i] <= 0.0 { return Err(BadWindow); }
    if Gpus(samples) != {0, 1} { return Ok([]); }
    var interval := CommonInterval(m, samples, excludeStartup);
    var windows: seq<seq<Interval>> := [];
    for i := 0 to |lengths|
      invariant |windows| == i && forall k :: 0 <= k < i ==> Tried(interval, lengths[k], strideFraction, windows[k])
    {
      var tried := TryWindows(interval, lengths[i], strideFraction);
      windows := windows + [tried];
    }
    return Ok(windows);
  }

  // ----- coverage

  /** A stride never exceeds the window, unless the window is shorter than one nanosecond. */
  lemma StrideWithinWindow(windowNs: int, fraction: real)
    requires windowNs >= 0 && 0.0 < fraction <= 1.0
    ensures 1 <= StrideNs(windowNs, fraction)
    ensures StrideNs(windowNs, fraction) <= windowNs <==> windowNs >= 1
  {
    assert windowNs as real * fraction <= windowNs as real by {
      assert windowNs as real - windowNs as real * fraction == windowNs as real * (1.0 - fraction);
    }
    assert windowNs as real * fraction >= 0.0;
  }

  /** The instant lies in one of the tried windows. */
  ghost predicate Covered(start: int, end: int, windowNs: int, strideNs: int, t: int)
    requires strideNs >= 1
  {
    exists i :: 0 <= i < WindowCount(start, end, windowNs, strideNs)
      && WindowAt(start, windowNs, strideNs, i).start <= t < WindowAt(start, windowNs, strideNs, i).end
  }

  /** The end of the last tried window; the start itself when none is tried. */
  function CoverageEnd(start: int, end: int, windowNs: int, strideNs: int): int
    requires strideNs >= 1
  {
    var n := WindowCount(start, end, windowNs, strideNs);
    if n == 0 then start else WindowAt(start, windowNs, strideNs, n - 1).end
  }

  ghost predicate NoGap(start: int, end: int, windowNs: int, strideNs: int)
    requires strideNs >= 1
  {
    forall t :: start <= t < CoverageEnd(start, end, windowNs, strideNs) ==> Covered(start, end, windowNs, strideNs, t)
  }

  lemma LongWindowCovers(start: int, end: int, windowNs: int, fraction: real, t: int)
    requires windowNs >= 1 && 0.0 < fraction <= 1.0
    requires start <= t < CoverageEnd(start, end, windowNs, StrideNs(windowNs, fraction))
    ensures Covered(start, end, windowNs, StrideNs(windowNs, fraction), t)
  {
    StrideWithinWindow(windowNs, fraction);
    var s := StrideNs(windowNs, fraction);
    var n := WindowCount(start, end, windowNs, s);
    var q := (t - start) / s;
    DivisionFacts(t - start, s);
    var i := if q < n then q else n - 1;
    if q >= n { Multiply(n - 1, q, s); }
    assert WindowAt(start, windowNs, s, i).start <= t < WindowAt(start, windowNs, s, i).end;
  }

  /** A window of length zero contains nothing, so two of them already leave the instant between their
      starts uncovered. */
  lemma ZeroLengthWindowsLeaveGap(start: int, end: int, fraction: real)
    requires 0.0 < fraction <= 1.0
    ensures StrideNs(0, fraction) == 1
    ensures forall t :: !Covered(start, end, 0, 1, t)
    ensures NoGap(start, end, 0, 1) <==> WindowCount(start, end, 0, 1) <= 1
  {
    var n := WindowCount(start, end, 0, 1);
    if n > 1 { assert start < CoverageEnd(start, end, 0, 1) && !Covered(start, end, 0, 1, start); }
  }

  /** The tried windows leave no gap between the start and the end of the last one exactly if the window
      is at least one nanosecond long, or there are not even two of them. */
  lemma WindowsLeaveNoGap(start: int, end: int, windowSeconds: real, fraction: real)
    requires windowSeconds > 0.0 && 0.0 < fraction <= 1.0
    ensures var w := Nanoseconds(windowSeconds);
      var s := StrideNs(w, fraction);
      NoGap(start, end, w, s) <==> windowSeconds * 1000000000.0 >= 1.0 || WindowCount(start, end, w, s) <= 1
  {
    var w := Nanoseconds(windowSeconds);
    assert w >= 1 <==> windowSeconds * 1000000000.0 >= 1.0;
    if w >= 1 {
      forall t | start <= t < CoverageEnd(start, end, w, StrideNs(w, fraction))
        ensures Covered(start, end, w, StrideNs(w, fraction), t)
      {
        LongWindowCovers(start, end, w, fraction, t);
      }
    } else {
      ZeroLengthWindowsLeaveGap(start, end, fraction);
    }
  }

  lemma DivisionFacts(x: int, s: int)
    requires x >= 0 && s > 0
    ensures x / s >= 0 && x / s * s <= x < x / s * s + s
  {
    assert x == x / s * s + x % s;
  }

  lemma Multiply(a: int, b: int, s: int)
    requires a <= b && s > 0
    ensures a * s <= b * s
  {
    assert b * s - a * s == (b - a) * s;
  }

  /** The last window ends inside the interval, and what is left behind it is shorter than a stride. */
  lemma TailShorterThanStride(start: int, end: int, windowNs: int, strideNs: int)
    requires strideNs >= 1 && WindowCount(start, end, windowNs, strideNs) > 0
    ensures var last := WindowAt(start, windowNs, strideNs, WindowCount(start, end, windowNs, strideNs) - 1);
      last.end <= end < last.end + strideNs
  {
    DivisionFacts(end - start - windowNs, strideNs);
  }

  // ----- the gate

  /** Gate and loop agree on the interval: same start, and the loop's exclusive end is one past the
      gate's last instant. */
  lemma IntervalsAgree(m: Manifest, commonStart: int, commonLast: int, excludeStartup: bool)
    ensures var g, e := GateInterval(m, commonStart, commonLast, excludeStartup),
      ExtractionInterval(m, commonStart, commonLast, excludeStartup);
      e == Interval(g.start, g.end + 1)
  {
  }

  /** Behind a passed gate the shortest window is tried at least once; and exactly when it is tried:
      its nanoseconds fit the interval with one to spare. */
  lemma PassedGateTriesAWindow(m: Manifest, commonStart: int, commonLast: int, excludeStartup: bool, window: real,
      fraction: real)
    requires window > 0.0 && 0.0 < fraction <= 1.0
    ensures var e := ExtractionInterval(m, commonStart, commonLast, excludeStartup);
      var n := WindowCount(e.start, e.end, Nanoseconds(window), StrideNs(Nanoseconds(window), fraction));
      && (GatePasses(m, commonStart, commonLast, excludeStartup, window) ==> n >= 1)
      && (n >= 1 <==> Nanoseconds(window) <= e.end - e.start)
  {
    IntervalsAgree(m, commonStart, commonLast, excludeStartup);
    var g := GateInterval(m, commonStart, commonLast, excludeStartup);
    var w := Nanoseconds(window);
    StrideWithinWindow(w, fraction);
    if GatePasses(m, commonStart, commonLast, excludeStartup, window) {
      assert g.start <= g.end;
      assert window * 1000000000.0 <= (g.end - g.start) as real;
    }
    if w <= g.end + 1 - g.start { DivisionFacts(g.end + 1 - g.start - w, StrideNs(w, fraction)); }
  }
}
