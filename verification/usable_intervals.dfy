/** The usable interval of a run and its windows, in terms of the samples and the settings. */
module UsableIntervals {
  import opened Common
  import opened Arithmetic
  import opened Windows

  /** `n` is `x` without its fraction. */
  predicate IsTruncated(n: int, x: real) {
    if x >= 0.0 then n as real <= x < n as real + 1.0 else n as real - 1.0 < x <= n as real
  }

  lemma TruncatedExactly(n: int, x: real)
    ensures IsTruncated(n, x) <==> n == Truncate(x)
  {
  }

  predicate IsNanoseconds(n: int, seconds: real) {
    IsTruncated(n, seconds * 1000000000.0)
  }

  lemma NanosecondsExactly(n: int, seconds: real)
    ensures IsNanoseconds(n, seconds) <==> n == Nanoseconds(seconds)
  {
    TruncatedExactly(n, seconds * 1000000000.0);
  }

  // The samples

  ghost predicate SampledBy(samples: seq<Stamp>, gpu: int, t: int) {
    exists i :: 0 <= i < |samples| && samples[i].gpu == gpu && samples[i].monotonicNs <= t
  }

  ghost predicate SampledFrom(samples: seq<Stamp>, gpu: int, t: int) {
    exists i :: 0 <= i < |samples| && samples[i].gpu == gpu && t <= samples[i].monotonicNs
  }

  lemma {:induction false} StampsAre(samples: seq<Stamp>, gpu: int, ns: int)
    ensures ns in StampsOf(samples, gpu) <==> Stamp(gpu, ns) in samples
  {
    if samples != [] {
      var n := |samples| - 1;
      StampsAre(samples[..n], gpu, ns);
      assert samples == samples[..n] + [samples[n]];
    }
  }

  lemma FirstExactly(samples: seq<Stamp>, gpu: int, t: int)
    requires StampsOf(samples, gpu) != []
    ensures First(StampsOf(samples, gpu)) <= t <==> SampledBy(samples, gpu, t)
  {
    var stamps := StampsOf(samples, gpu);
    var first := First(stamps);
    StampsAre(samples, gpu, first);
    if SampledBy(samples, gpu, t) {
      var i :| 0 <= i < |samples| && samples[i].gpu == gpu && samples[i].monotonicNs <= t;
      StampsAre(samples, gpu, samples[i].monotonicNs);
    }
    if first <= t {
      var i :| 0 <= i < |samples| && samples[i] == Stamp(gpu, first);
    }
  }

  lemma LastExactly(samples: seq<Stamp>, gpu: int, t: int)
    requires StampsOf(samples, gpu) != []
    ensures t <= Last(StampsOf(samples, gpu)) <==> SampledFrom(samples, gpu, t)
  {
    var stamps := StampsOf(samples, gpu);
    var last := Last(stamps);
    StampsAre(samples, gpu, last);
    if SampledFrom(samples, gpu, t) {
      var i :| 0 <= i < |samples| && samples[i].gpu == gpu && t <= samples[i].monotonicNs;
      StampsAre(samples, gpu, samples[i].monotonicNs);
    }
    if t <= last {
      var i :| 0 <= i < |samples| && samples[i] == Stamp(gpu, last);
    }
  }

  lemma CommonExactly(samples: seq<Stamp>, t: int)
    requires Gpus(samples) == {0, 1}
    ensures CommonStart(samples) <= t <==> SampledBy(samples, 0, t) && SampledBy(samples, 1, t)
    ensures t <= CommonLast(samples) <==> SampledFrom(samples, 0, t) && SampledFrom(samples, 1, t)
  {
    PresentGpu(samples, 0);
    PresentGpu(samples, 1);
    FirstExactly(samples, 0, t);
    FirstExactly(samples, 1, t);
    LastExactly(samples, 0, t);
    LastExactly(samples, 1, t);
  }

  // The usable interval

  /** By `t` the start-up is over: both GPUs have been sampled, the measurement has begun, and where its
      start is not recorded, the warm-up has passed since both were sampled. */
  ghost predicate Begun(m: Manifest, samples: seq<Stamp>, excludeStartup: bool, warmupNs: int, t: int) {
    if !excludeStartup then SampledBy(samples, 0, t) && SampledBy(samples, 1, t)
    else if m.measurementStart.Some? then
      SampledBy(samples, 0, t) && SampledBy(samples, 1, t) && m.measurementStart.value <= t
    else SampledBy(samples, 0, t - warmupNs) && SampledBy(samples, 1, t - warmupNs)
  }

  /** At `t` both GPUs are still sampled and a recorded measurement has not ended. */
  ghost predicate Lasting(m: Manifest, samples: seq<Stamp>, excludeStartup: bool, t: int) {
    && SampledFrom(samples, 0, t) && SampledFrom(samples, 1, t)
    && (excludeStartup && m.measurementEnd.Some? ==> t <= m.measurementEnd.value)
  }

  ghost predicate UsableAt(m: Manifest, samples: seq<Stamp>, excludeStartup: bool, warmupNs: int, t: int) {
    Begun(m, samples, excludeStartup, warmupNs, t) && Lasting(m, samples, excludeStartup, t)
  }

  /** The interval of the windows holds exactly the usable instants. */
  lemma IntervalExactly(m: Manifest, samples: seq<Stamp>, excludeStartup: bool, warmupNs: int, t: int)
    requires Gpus(samples) == {0, 1} && IsNanoseconds(warmupNs, m.warmupSeconds)
    ensures var i := CommonInterval(m, samples, excludeStartup);
      && (i.start <= t <==> Begun(m, samples, excludeStartup, warmupNs, t))
      && (t < i.end <==> Lasting(m, samples, excludeStartup, t))
  {
    NanosecondsExactly(warmupNs, m.warmupSeconds);
    CommonExactly(samples, t);
    CommonExactly(samples, t - warmupNs);
  }

  // The gate

  ghost predicate UsableSpan(m: Manifest, samples: seq<Stamp>, excludeStartup: bool, warmupNs: int, from: int, to: int,
      seconds: real)
  {
    && UsableAt(m, samples, excludeStartup, warmupNs, from) && UsableAt(m, samples, excludeStartup, warmupNs, to)
    && (to - from) as real >= seconds * 1000000000.0
  }

  predicate Ordered(from: int, to: int) {
    from < to
  }

  /** Both GPUs are sampled around both instants. */
  ghost predicate SampledAround(samples: seq<Stamp>, from: int, to: int) {
    && SampledBy(samples, 0, from) && SampledBy(samples, 1, from)
    && SampledFrom(samples, 0, to) && SampledFrom(samples, 1, to)
  }

  lemma GateInstants(m: Manifest, samples: seq<Stamp>, excludeStartup: bool, warmupNs: int, t: int)
    requires Gpus(samples) == {0, 1} && IsNanoseconds(warmupNs, m.warmupSeconds)
    ensures var g := GateInterval(m, CommonStart(samples), CommonLast(samples), excludeStartup);
      && (g.start <= t <==> Begun(m, samples, excludeStartup, warmupNs, t))
      && (t <= g.end <==> Lasting(m, samples, excludeStartup, t))
  {
    IntervalsAgree(m, CommonStart(samples), CommonLast(samples), excludeStartup);
    IntervalExactly(m, samples, excludeStartup, warmupNs, t);
  }

  lemma LongEnough(g: Interval, window: real)
    requires window > 0.0
    ensures (if g.end < g.start then 0.0 else (g.end - g.start) as real / 1000000000.0) >= window
            <==> (g.end - g.start) as real >= window * 1000000000.0
  {
  }

  /** The gate lets a run through exactly if both GPUs are sampled around two different instants, and two
      usable instants lie at least the shortest window apart. */
  lemma GateExactly(m: Manifest, samples: seq<Stamp>, excludeStartup: bool, warmupNs: int, window: real)
    requires Gpus(samples) == {0, 1} && IsNanoseconds(warmupNs, m.warmupSeconds) && window > 0.0
    ensures GatePasses(m, CommonStart(samples), CommonLast(samples), excludeStartup, window) <==>
      && (exists from, to :: SampledAround(samples, from, to) && Ordered(from, to))
      && (exists from, to :: UsableSpan(m, samples, excludeStartup, warmupNs, from, to, window))
  {
    var first, last := CommonStart(samples), CommonLast(samples);
    var g := GateInterval(m, first, last, excludeStartup);
    LongEnough(g, window);
    AroundExactly(samples);
    if exists from, to :: UsableSpan(m, samples, excludeStartup, warmupNs, from, to, window) {
      var from, to :| UsableSpan(m, samples, excludeStartup, warmupNs, from, to, window);
      GateInstants(m, samples, excludeStartup, warmupNs, from);
      GateInstants(m, samples, excludeStartup, warmupNs, to);
    }
    if GatePasses(m, first, last, excludeStartup, window) {
      GateInstants(m, samples, excludeStartup, warmupNs, g.start);
      GateInstants(m, samples, excludeStartup, warmupNs, g.end);
      assert UsableSpan(m, samples, excludeStartup, warmupNs, g.start, g.end, window);
    }
  }

  lemma AroundExactly(samples: seq<Stamp>)
    requires Gpus(samples) == {0, 1}
    ensures CommonStart(samples) < CommonLast(samples)
            <==> exists from, to :: SampledAround(samples, from, to) && Ordered(from, to)
  {
    var first, last := CommonStart(samples), CommonLast(samples);
    CommonExactly(samples, first);
    CommonExactly(samples, last);
    if first < last {
      assert SampledAround(samples, first, last) && Ordered(first, last);
    }
    if exists from, to :: SampledAround(samples, from, to) && Ordered(from, to) {
      var from, to :| SampledAround(samples, from, to) && Ordered(from, to);
      CommonExactly(samples, from);
      CommonExactly(samples, to);
    }
  }

  // The windows

  /** The stride is the share of the window without its fraction, at least one nanosecond. */
  predicate IsStride(s: int, w: int, fraction: real) {
    s >= 1 && (IsTruncated(s, w as real * fraction) || (s == 1 && w as real * fraction < 1.0))
  }

  lemma StrideExactly(s: int, w: int, fraction: real)
    ensures IsStride(s, w, fraction) <==> s == StrideNs(w, fraction)
  {
    TruncatedExactly(s, w as real * fraction);
  }

  /** Windows of `w`, `s` apart, from the start of the interval on, all inside; one more would not fit. */
  predicate AllThatFit(interval: Interval, windows: seq<Interval>, w: int, s: int) {
    && (forall i :: 0 <= i < |windows| ==>
          windows[i].start == interval.start + i * s && windows[i].end - windows[i].start == w
          && windows[i].end <= interval.end)
    && interval.start + |windows| * s + w > interval.end
  }

  lemma CountExactly(start: int, end: int, w: int, s: int, n: nat)
    requires s >= 1
    ensures n == WindowCount(start, end, w, s) <==>
      (n == 0 || start + (n - 1) * s + w <= end) && start + n * s + w > end
  {
    if n > 0 { OneMoreStride(n - 1, s); }
    if (n == 0 || start + (n - 1) * s + w <= end) && start + n * s + w > end {
      AllTried(start, end, w, s, n);
    }
    if n == WindowCount(start, end, w, s) && n > 0 { DivisionFacts(end - start - w, s); }
  }

  lemma FitsUpTo(start: int, end: int, w: int, s: int, n: nat, i: nat)
    requires s >= 1 && i < n && start + (n - 1) * s + w <= end
    ensures start + i * s + w <= end
  {
    Multiply(i, n - 1, s);
  }

  /** The windows of one length are exactly those that fit: of the truncated length, the stride apart. */
  lemma TriedExactly(interval: Interval, windowSeconds: real, fraction: real, windows: seq<Interval>, w: int, s: int)
    requires windowSeconds > 0.0 && 0.0 < fraction <= 1.0
    requires IsNanoseconds(w, windowSeconds) && IsStride(s, w, fraction)
    ensures Tried(interval, windowSeconds, fraction, windows) <==> AllThatFit(interval, windows, w, s)
  {
    NanosecondsExactly(w, windowSeconds);
    StrideExactly(s, w, fraction);
    var n := |windows|;
    CountExactly(interval.start, interval.end, w, s, n);
    if Tried(interval, windowSeconds, fraction, windows) && n > 0 {
      forall i | 0 <= i < n
        ensures windows[i].end <= interval.end
      {
        FitsUpTo(interval.start, interval.end, w, s, n, i);
      }
    }
    if AllThatFit(interval, windows, w, s) && n > 0 {
      assert windows[n - 1].end <= interval.end;
    }
  }
}
