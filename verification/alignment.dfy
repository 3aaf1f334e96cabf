/** Two-pointer timestamp alignment (features/extraction.py, `align_samples_by_timestamp`). */
module Alignment {
  import opened Common
  import opened Ordering

  datatype Row = Row(monotonicNs: int, sampleId: string)

  datatype AlignError = NegativeTolerance

  function Times(rows: seq<Row>): (t: seq<real>)
    ensures |t| == |rows| && forall i :: 0 <= i < |t| ==> t[i] == rows[i].monotonicNs as real
  {
    seq(|rows|, i requires 0 <= i < |rows| => rows[i].monotonicNs as real)
  }

  function Distance(x: int, y: int): nat {
    if x < y then y - x else x - y
  }

  /** A one-to-one pairing of left and right positions within the tolerance, crossing or not. */
  ghost predicate IsMatching(left: seq<Row>, right: seq<Row>, tolerance: int, m: set<(nat, nat)>) {
    && (forall p :: p in m ==> p.0 < |left| && p.1 < |right|)
    && (forall p :: p in m ==> Distance(left[p.0].monotonicNs, right[p.1].monotonicNs) <= tolerance)
    && (forall p, q :: p in m && q in m && p != q ==> p.0 != q.0 && p.1 != q.1)
  }

  /** The positions from the k-th of an order on. */
  ghost function From(order: seq<nat>, k: nat): (s: set<nat>)
    requires k <= |order|
  {
    set i | k <= i < |order| :: order[i]
  }

  ghost predicate Within(m: set<(nat, nat)>, ls: set<nat>, rs: set<nat>) {
    && (forall p :: p in m ==> p.0 in ls)
    && (forall p :: p in m ==> p.1 in rs)
  }

  /** Nothing that is left could be paired more often than `n` times. */
  ghost predicate AtMost(left: seq<Row>, right: seq<Row>, tolerance: int, ls: set<nat>, rs: set<nat>, n: nat) {
    forall m :: IsMatching(left, right, tolerance, m) && Within(m, ls, rs) ==> |m| <= n
  }

  /** The exchange: when `a` and `b` are matched to others, those others can be matched to each other. */
  lemma Exchange(left: seq<Row>, right: seq<Row>, tolerance: int, m: set<(nat, nat)>, x: (nat, nat), y: (nat, nat))
    requires IsMatching(left, right, tolerance, m) && x in m && y in m && x != y
    requires left[x.0].monotonicNs <= left[y.0].monotonicNs && right[y.1].monotonicNs <= right[x.1].monotonicNs
    requires Distance(left[x.0].monotonicNs, right[y.1].monotonicNs) <= tolerance
    ensures (y.0, x.1) !in m
    ensures IsMatching(left, right, tolerance, m - {x, y} + {(y.0, x.1)})
    ensures |m - {x, y} + {(y.0, x.1)}| == |m| - 1
  {
    var swapped := (y.0, x.1);
    assert swapped !in m;
    assert |m - {x, y}| == |m| - 2 by { assert {x, y} <= m && |{x, y}| == 2; }
    assert Distance(left[swapped.0].monotonicNs, right[swapped.1].monotonicNs) <= tolerance;
  }

  lemma DropPair(left: seq<Row>, right: seq<Row>, tolerance: int, m: set<(nat, nat)>, x: (nat, nat))
    requires IsMatching(left, right, tolerance, m) && x in m
    ensures IsMatching(left, right, tolerance, m - {x}) && |m - {x}| == |m| - 1
  {
  }

  /** If the two earliest rows left are within the tolerance, pairing them loses nothing. */
  lemma PairingHeadsIsOptimal(left: seq<Row>, right: seq<Row>, tolerance: int, ls: set<nat>, rs: set<nat>, a: nat,
      b: nat, n: nat)
    requires a in ls && b in rs && a < |left| && b < |right|
    requires Distance(left[a].monotonicNs, right[b].monotonicNs) <= tolerance
    requires forall i :: i in ls ==> i < |left| && left[a].monotonicNs <= left[i].monotonicNs
    requires forall j :: j in rs ==> j < |right| && right[b].monotonicNs <= right[j].monotonicNs
    requires AtMost(left, right, tolerance, ls - {a}, rs - {b}, n)
    ensures AtMost(left, right, tolerance, ls, rs, n + 1)
  {
    forall m | IsMatching(left, right, tolerance, m) && Within(m, ls, rs)
      ensures |m| <= n + 1
    {
      var m' := WithoutHeads(left, right, tolerance, ls, rs, a, b, m);
    }
  }

  /** No pair of `m` other than `x` involves a left position or a right position of `x`. */
  lemma OthersAvoid(left: seq<Row>, right: seq<Row>, tolerance: int, m: set<(nat, nat)>, x: (nat, nat), ls: set<nat>,
      rs: set<nat>)
    requires IsMatching(left, right, tolerance, m) && x in m && Within(m, ls, rs)
    ensures Within(m - {x}, ls - {x.0}, rs - {x.1})
  {
  }

  /** Any matching gives up at most one pair to free both heads. */
  lemma WithoutHeads(left: seq<Row>, right: seq<Row>, tolerance: int, ls: set<nat>, rs: set<nat>, a: nat, b: nat,
      m: set<(nat, nat)>)
      returns (m': set<(nat, nat)>)
    requires a in ls && b in rs && a < |left| && b < |right|
    requires Distance(left[a].monotonicNs, right[b].monotonicNs) <= tolerance
    requires forall i :: i in ls ==> i < |left| && left[a].monotonicNs <= left[i].monotonicNs
    requires forall j :: j in rs ==> j < |right| && right[b].monotonicNs <= right[j].monotonicNs
    requires IsMatching(left, right, tolerance, m) && Within(m, ls, rs)
    ensures IsMatching(left, right, tolerance, m') && Within(m', ls - {a}, rs - {b}) && |m| <= |m'| + 1
  {
    var xs, ys := (set p | p in m && p.0 == a), (set p | p in m && p.1 == b);
    assert forall p :: p in m && p.0 == a ==> p in xs;
    assert forall p :: p in m && p.1 == b ==> p in ys;
    if xs == {} && ys == {} {
      m' := m;
    } else if xs == {} {
      var y :| y in ys;
      m' := DropForHeads(left, right, tolerance, ls, rs, a, b, m, y);
    } else {
      var x :| x in xs;
      if ys <= {x} {
        m' := DropForHeads(left, right, tolerance, ls, rs, a, b, m, x);
      } else {
        var y :| y in ys && y != x;
        m' := ExchangeForHeads(left, right, tolerance, ls, rs, m, x, y);
      }
    }
  }

  lemma DropForHeads(left: seq<Row>, right: seq<Row>, tolerance: int, ls: set<nat>, rs: set<nat>, a: nat, b: nat,
      m: set<(nat, nat)>, x: (nat, nat))
      returns (m': set<(nat, nat)>)
    requires IsMatching(left, right, tolerance, m) && Within(m, ls, rs) && x in m
    requires forall p :: p in m && p != x ==> p.0 != a && p.1 != b
    ensures IsMatching(left, right, tolerance, m') && Within(m', ls - {a}, rs - {b}) && |m| <= |m'| + 1
  {
    DropPair(left, right, tolerance, m, x);
    m' := m - {x};
  }

  lemma ExchangeForHeads(left: seq<Row>, right: seq<Row>, tolerance: int, ls: set<nat>, rs: set<nat>,
      m: set<(nat, nat)>, x: (nat, nat), y: (nat, nat))
      returns (m': set<(nat, nat)>)
    requires IsMatching(left, right, tolerance, m) && Within(m, ls, rs) && x in m && y in m && x != y
    requires left[x.0].monotonicNs <= left[y.0].monotonicNs && right[y.1].monotonicNs <= right[x.1].monotonicNs
    requires Distance(left[x.0].monotonicNs, right[y.1].monotonicNs) <= tolerance
    ensures IsMatching(left, right, tolerance, m') && Within(m', ls - {x.0}, rs - {y.1}) && |m| <= |m'| + 1
  {
    Exchange(left, right, tolerance, m, x, y);
    m' := m - {x, y} + {(y.0, x.1)};
    OthersAvoid(left, right, tolerance, m, x, ls, rs);
    OthersAvoid(left, right, tolerance, m, y, ls, rs);
  }

  /** The skipping steps: an earliest row that is too early for everything left pairs with nothing. */
  lemma SkippingLeftIsOptimal(left: seq<Row>, right: seq<Row>, tolerance: int, ls: set<nat>, rs: set<nat>, a: nat,
      n: nat)
    requires a in ls && a < |left|
    requires forall j :: j in rs ==> j < |right| && Distance(left[a].monotonicNs, right[j].monotonicNs) > tolerance
    requires AtMost(left, right, tolerance, ls - {a}, rs, n)
    ensures AtMost(left, right, tolerance, ls, rs, n)
  {
    forall m | IsMatching(left, right, tolerance, m) && Within(m, ls, rs)
      ensures |m| <= n
    {
      assert Within(m, ls - {a}, rs);
    }
  }

  lemma SkippingRightIsOptimal(left: seq<Row>, right: seq<Row>, tolerance: int, ls: set<nat>, rs: set<nat>, b: nat,
      n: nat)
    requires b in rs && b < |right|
    requires forall i :: i in ls ==> i < |left| && Distance(left[i].monotonicNs, right[b].monotonicNs) > tolerance
    requires AtMost(left, right, tolerance, ls, rs - {b}, n)
    ensures AtMost(left, right, tolerance, ls, rs, n)
  {
    forall m | IsMatching(left, right, tolerance, m) && Within(m, ls, rs)
      ensures |m| <= n
    {
      assert Within(m, ls, rs - {b});
    }
  }

  // ----- the greedy pairing

  /** The pairs the two-pointer loop still adds from pointers `l` and `r` on. */
  function Greedy(left: seq<Row>, right: seq<Row>, lo: seq<nat>, ro: seq<nat>, tolerance: int, l: nat,
      r: nat): seq<(nat, nat)>
    requires IsOrder(Times(left), lo) && IsOrder(Times(right), ro) && l <= |lo| && r <= |ro|
    decreases |lo| - l + |ro| - r
  {
    if l == |lo| || r == |ro| then []
    else
      var delta := left[lo[l]].monotonicNs - right[ro[r]].monotonicNs;
      if -tolerance <= delta <= tolerance then [(lo[l], ro[r])] + Greedy(left, right, lo, ro, tolerance, l + 1, r + 1)
      else if delta < 0 then Greedy(left, right, lo, ro, tolerance, l + 1, r)
      else Greedy(left, right, lo, ro, tolerance, l, r + 1)
  }

  lemma FromStep(order: seq<nat>, k: nat)
    requires k < |order| && Distinct(order)
    ensures From(order, k + 1) == From(order, k) - {order[k]}
  {
  }

  lemma OrderFacts(rows: seq<Row>, order: seq<nat>, k: nat)
    requires IsOrder(Times(rows), order) && k < |order|
    ensures Distinct(order)
    ensures forall i :: i in From(order, k) ==> i < |rows| && rows[order[k]].monotonicNs <= rows[i].monotonicNs
  {
  }

  /** Where the pointers are in range. */
  ghost predicate AtHeads(left: seq<Row>, right: seq<Row>, lo: seq<nat>, ro: seq<nat>, l: nat, r: nat) {
    IsOrder(Times(left), lo) && IsOrder(Times(right), ro) && l < |lo| && r < |ro|
  }

  lemma NothingToPair(left: seq<Row>, right: seq<Row>, tolerance: int, ls: set<nat>, rs: set<nat>)
    requires ls == {} || rs == {}
    ensures AtMost(left, right, tolerance, ls, rs, 0)
  {
    forall m | IsMatching(left, right, tolerance, m) && Within(m, ls, rs)
      ensures |m| <= 0
    {
      assert forall p: (nat, nat) :: p !in m;
      assert m == {};
    }
  }

  lemma PairingBranch(
      left: seq<Row>, right: seq<Row>, lo: seq<nat>, ro: seq<nat>, tolerance: int, l: nat, r: nat, n: nat)
    requires AtHeads(left, right, lo, ro, l, r)
    requires Distance(left[lo[l]].monotonicNs, right[ro[r]].monotonicNs) <= tolerance
    requires AtMost(left, right, tolerance, From(lo, l + 1), From(ro, r + 1), n)
    ensures AtMost(left, right, tolerance, From(lo, l), From(ro, r), n + 1)
  {
    OrderFacts(left, lo, l);
    OrderFacts(right, ro, r);
    FromStep(lo, l);
    FromStep(ro, r);
    PairingHeadsIsOptimal(left, right, tolerance, From(lo, l), From(ro, r), lo[l], ro[r], n);
  }

  lemma SkippingLeftBranch(
      left: seq<Row>, right: seq<Row>, lo: seq<nat>, ro: seq<nat>, tolerance: int, l: nat, r: nat, n: nat)
    requires AtHeads(left, right, lo, ro, l, r)
    requires left[lo[l]].monotonicNs + tolerance < right[ro[r]].monotonicNs
    requires AtMost(left, right, tolerance, From(lo, l + 1), From(ro, r), n)
    ensures AtMost(left, right, tolerance, From(lo, l), From(ro, r), n)
  {
    OrderFacts(left, lo, l);
    OrderFacts(right, ro, r);
    FromStep(lo, l);
    SkippingLeftIsOptimal(left, right, tolerance, From(lo, l), From(ro, r), lo[l], n);
  }

  lemma SkippingRightBranch(
      left: seq<Row>, right: seq<Row>, lo: seq<nat>, ro: seq<nat>, tolerance: int, l: nat, r: nat, n: nat)
    requires AtHeads(left, right, lo, ro, l, r)
    requires right[ro[r]].monotonicNs + tolerance < left[lo[l]].monotonicNs
    requires AtMost(left, right, tolerance, From(lo, l), From(ro, r + 1), n)
    ensures AtMost(left, right, tolerance, From(lo, l), From(ro, r), n)
  {
    OrderFacts(left, lo, l);
    OrderFacts(right, ro, r);
    FromStep(ro, r);
    SkippingRightIsOptimal(left, right, tolerance, From(lo, l), From(ro, r), ro[r], n);
  }

  lemma HeadsInRange(left: seq<Row>, right: seq<Row>, lo: seq<nat>, ro: seq<nat>, l: nat, r: nat)
    requires AtHeads(left, right, lo, ro, l, r)
    ensures lo[l] < |left| && ro[r] < |right|
  {
  }

  /** The greedy pairing is a maximum matching. */
  lemma {:induction false} GreedyIsMaximum(
      left: seq<Row>, right: seq<Row>, lo: seq<nat>, ro: seq<nat>, tolerance: int, l: nat, r: nat)
    requires IsOrder(Times(left), lo) && IsOrder(Times(right), ro) && l <= |lo| && r <= |ro| && tolerance >= 0
    ensures AtMost(left, right, tolerance, From(lo, l), From(ro, r), |Greedy(left, right, lo, ro, tolerance, l, r)|)
    decreases |lo| - l + |ro| - r
  {
    if l == |lo| || r == |ro| {
      NothingToPair(left, right, tolerance, From(lo, l), From(ro, r));
    } else {
      HeadsInRange(left, right, lo, ro, l, r);
      var delta := left[lo[l]].monotonicNs - right[ro[r]].monotonicNs;
      if -tolerance <= delta <= tolerance {
        GreedyIsMaximum(left, right, lo, ro, tolerance, l + 1, r + 1);
        PairingBranch(left, right, lo, ro, tolerance, l, r, |Greedy(left, right, lo, ro, tolerance, l + 1, r + 1)|);
      } else if delta < 0 {
        GreedyIsMaximum(left, right, lo, ro, tolerance, l + 1, r);
        SkippingLeftBranch(left, right, lo, ro, tolerance, l, r, |Greedy(left, right, lo, ro, tolerance, l + 1, r)|);
      } else {
        GreedyIsMaximum(left, right, lo, ro, tolerance, l, r + 1);
        SkippingRightBranch(left, right, lo, ro, tolerance, l, r, |Greedy(left, right, lo, ro, tolerance, l, r + 1)|);
      }
    }
  }

  /** Position `x` comes before position `y` in timestamp order (ties by position, as in a stable sort). */
  predicate Precedes(rows: seq<Row>, x: nat, y: nat)
    requires x < |rows| && y < |rows|
  {
    rows[x].monotonicNs < rows[y].monotonicNs || (rows[x].monotonicNs == rows[y].monotonicNs && x < y)
  }

  ghost predicate WellPaired(left: seq<Row>, right: seq<Row>, tolerance: int, pairs: seq<(nat, nat)>) {
    && (forall k :: 0 <= k < |pairs| ==> pairs[k].0 < |left| && pairs[k].1 < |right|)
    && (forall k :: 0 <= k < |pairs| ==>
          Distance(left[pairs[k].0].monotonicNs, right[pairs[k].1].monotonicNs) <= tolerance)
    && (forall j, k :: 0 <= j < k < |pairs| ==>
          Precedes(left, pairs[j].0, pairs[k].0) && Precedes(right, pairs[j].1, pairs[k].1))
  }

  /** `x` is met at or after the k-th place of the order. */
  ghost predicate Later(order: seq<nat>, k: nat, x: nat) {
    exists i :: k <= i < |order| && order[i] == x
  }

  ghost predicate AllLater(lo: seq<nat>, l: nat, ro: seq<nat>, r: nat, pairs: seq<(nat, nat)>) {
    forall k :: 0 <= k < |pairs| ==> Later(lo, l, pairs[k].0) && Later(ro, r, pairs[k].1)
  }

  lemma LaterFromEarlier(lo: seq<nat>, l: nat, ro: seq<nat>, r: nat, l': nat, r': nat, pairs: seq<(nat, nat)>)
    requires AllLater(lo, l', ro, r', pairs) && l <= l' && r <= r'
    ensures AllLater(lo, l, ro, r, pairs)
  {
    forall k | 0 <= k < |pairs|
      ensures Later(lo, l, pairs[k].0) && Later(ro, r, pairs[k].1)
    {
      assert Later(lo, l', pairs[k].0) && Later(ro, r', pairs[k].1);
    }
  }

  ghost predicate SoundFrom(
      left: seq<Row>, right: seq<Row>, lo: seq<nat>, ro: seq<nat>, tolerance: int, l: nat, r: nat,
      pairs: seq<(nat, nat)>) {
    WellPaired(left, right, tolerance, pairs) && AllLater(lo, l, ro, r, pairs)
  }

  lemma {:induction false} GreedyIsWellPaired(
      left: seq<Row>, right: seq<Row>, lo: seq<nat>, ro: seq<nat>, tolerance: int, l: nat, r: nat)
    requires IsOrder(Times(left), lo) && IsOrder(Times(right), ro) && l <= |lo| && r <= |ro|
    ensures SoundFrom(left, right, lo, ro, tolerance, l, r, Greedy(left, right, lo, ro, tolerance, l, r))
    decreases |lo| - l + |ro| - r
  {
    if l < |lo| && r < |ro| {
      HeadsInRange(left, right, lo, ro, l, r);
      var delta := left[lo[l]].monotonicNs - right[ro[r]].monotonicNs;
      if -tolerance <= delta <= tolerance {
        GreedyIsWellPaired(left, right, lo, ro, tolerance, l + 1, r + 1);
        PairStep(left, right, lo, ro, tolerance, l, r, Greedy(left, right, lo, ro, tolerance, l + 1, r + 1));
      } else if delta < 0 {
        GreedyIsWellPaired(left, right, lo, ro, tolerance, l + 1, r);
        LaterFromEarlier(lo, l, ro, r, l + 1, r, Greedy(left, right, lo, ro, tolerance, l + 1, r));
      } else {
        GreedyIsWellPaired(left, right, lo, ro, tolerance, l, r + 1);
        LaterFromEarlier(lo, l, ro, r, l, r + 1, Greedy(left, right, lo, ro, tolerance, l, r + 1));
      }
    }
  }

  lemma PairStep(left: seq<Row>, right: seq<Row>, lo: seq<nat>, ro: seq<nat>, tolerance: int, l: nat, r: nat,
      rest: seq<(nat, nat)>)
    requires IsOrder(Times(left), lo) && IsOrder(Times(right), ro) && l < |lo| && r < |ro|
    requires SoundFrom(left, right, lo, ro, tolerance, l + 1, r + 1, rest)
    requires Distance(left[lo[l]].monotonicNs, right[ro[r]].monotonicNs) <= tolerance
    ensures SoundFrom(left, right, lo, ro, tolerance, l, r, [(lo[l], ro[r])] + rest)
  {
    assert Later(lo, l, lo[l]) && Later(ro, r, ro[r]);
    forall k | 0 <= k < |rest|
      ensures rest[k].0 < |left| && rest[k].1 < |right| && lo[l] < |left| && ro[r] < |right|
      ensures Precedes(left, lo[l], rest[k].0) && Precedes(right, ro[r], rest[k].1)
    {
      HeadPrecedes(left, lo, l, rest[k].0);
      HeadPrecedes(right, ro, r, rest[k].1);
    }
    ConsWellPaired(left, right, tolerance, (lo[l], ro[r]), rest);
  }

  lemma HeadPrecedes(rows: seq<Row>, order: seq<nat>, k: nat, x: nat)
    requires IsOrder(Times(rows), order) && k < |order| && Later(order, k + 1, x)
    ensures order[k] < |rows| && x < |rows| && Precedes(rows, order[k], x)
  {
    var i :| k < i < |order| && order[i] == x;
    assert Before(Times(rows), order[k], order[i]);
  }

  lemma ConsWellPaired(left: seq<Row>, right: seq<Row>, tolerance: int, p: (nat, nat), rest: seq<(nat, nat)>)
    requires WellPaired(left, right, tolerance, rest)
    requires p.0 < |left| && p.1 < |right| && Distance(left[p.0].monotonicNs, right[p.1].monotonicNs) <= tolerance
    requires forall k :: 0 <= k < |rest| ==> Precedes(left, p.0, rest[k].0) && Precedes(right, p.1, rest[k].1)
    ensures WellPaired(left, right, tolerance, [p] + rest)
  {
  }

  lemma GreedyStep(left: seq<Row>, right: seq<Row>, lo: seq<nat>, ro: seq<nat>, tolerance: int, l: nat, r: nat,
      pairs: seq<(nat, nat)>)
    requires IsOrder(Times(left), lo) && IsOrder(Times(right), ro) && l < |lo| && r < |ro|
    ensures var leftNs, rightNs := left[lo[l]].monotonicNs, right[ro[r]].monotonicNs;
      pairs + Greedy(left, right, lo, ro, tolerance, l, r)
      == if Distance(leftNs, rightNs) <= tolerance
         then pairs + [(lo[l], ro[r])] + Greedy(left, right, lo, ro, tolerance, l + 1, r + 1)
         else if leftNs < rightNs then pairs + Greedy(left, right, lo, ro, tolerance, l + 1, r)
         else pairs + Greedy(left, right, lo, ro, tolerance, l, r + 1)
  {
  }

  /** The two-pointer loop. */
  method PairGreedily(left: seq<Row>, right: seq<Row>, lo: seq<nat>, ro: seq<nat>, tolerance: int)
    returns (pairs: seq<(nat, nat)>)
    requires IsOrder(Times(left), lo) && IsOrder(Times(right), ro)
    ensures pairs == Greedy(left, right, lo, ro, tolerance, 0, 0)
  {
    pairs := [];
    var l, r := 0, 0;
    ghost var whole := Greedy(left, right, lo, ro, tolerance, 0, 0);
    while l < |lo| && r < |ro|
      invariant l <= |lo| && r <= |ro|
      invariant pairs + Greedy(left, right, lo, ro, tolerance, l, r) == whole
    {
      HeadsInRange(left, right, lo, ro, l, r);
      var leftNs, rightNs := left[lo[l]].monotonicNs, right[ro[r]].monotonicNs;
      GreedyStep(left, right, lo, ro, tolerance, l, r, pairs);
      if Distance(leftNs, rightNs) <= tolerance {
        pairs := pairs + [(lo[l], ro[r])];
        l, r := l + 1, r + 1;
      } else if leftNs < rightNs {
        l := l + 1;
      } else {
        r := r + 1;
      }
    }
  }

  /** `int(tolerance_seconds * 1e9)` for a tolerance that is not negative. */
  function ToleranceNs(seconds: real): (r: int)
    ensures seconds >= 0.0 ==> r >= 0
  {
    (seconds * 1000000000.0).Floor
  }

  /** Two stamps are within the tolerance exactly if neither is later than the other by more seconds. */
  lemma ToleranceExactly(x: int, y: int, seconds: real)
    requires seconds >= 0.0
    ensures Distance(x, y) <= ToleranceNs(seconds)
            <==> (x - y) as real <= seconds * 1000000000.0 && (y - x) as real <= seconds * 1000000000.0
  {
    var bound := seconds * 1000000000.0;
    assert Distance(x, y) as real <= bound <==> Distance(x, y) <= bound.Floor;
  }

  /** Sound pairs, and as many as any matching within the tolerance has. */
  ghost predicate IsBest(left: seq<Row>, right: seq<Row>, tolerance: int, pairs: seq<(nat, nat)>) {
    && WellPaired(left, right, tolerance, pairs)
    && forall m :: IsMatching(left, right, tolerance, m) ==> |m| <= |pairs|
  }

  /** `align_samples_by_timestamp`; samples are named by their positions in the inputs. */
  method Align(left: seq<Row>, right: seq<Row>, toleranceSeconds: real)
    returns (result: Result<seq<(nat, nat)>, AlignError>)
    ensures result.Err? <==> toleranceSeconds < 0.0
    ensures result.Ok? ==> IsBest(left, right, ToleranceNs(toleranceSeconds), result.value)
  {
    if toleranceSeconds < 0.0 {
      return Err(NegativeTolerance);
    }
    var tolerance := ToleranceNs(toleranceSeconds);
    var lo, ro := Order(Times(left)), Order(Times(right));
    var pairs := PairGreedily(left, right, lo, ro, tolerance);
    WholeIsBest(left, right, lo, ro, tolerance);
    return Ok(pairs);
  }

  lemma WholeIsBest(left: seq<Row>, right: seq<Row>, lo: seq<nat>, ro: seq<nat>, tolerance: int)
    requires IsOrder(Times(left), lo) && IsOrder(Times(right), ro) && tolerance >= 0
    ensures IsBest(left, right, tolerance, Greedy(left, right, lo, ro, tolerance, 0, 0))
  {
    GreedyIsWellPaired(left, right, lo, ro, tolerance, 0, 0);
    WholeIsMaximum(left, right, lo, ro, tolerance);
  }

  lemma WholeIsMaximum(left: seq<Row>, right: seq<Row>, lo: seq<nat>, ro: seq<nat>, tolerance: int)
    requires IsOrder(Times(left), lo) && IsOrder(Times(right), ro) && tolerance >= 0
    ensures forall m :: IsMatching(left, right, tolerance, m) ==> |m| <= |Greedy(left, right, lo, ro, tolerance, 0, 0)|
  {
    GreedyIsMaximum(left, right, lo, ro, tolerance, 0, 0);
    AllFromStart(left, lo);
    AllFromStart(right, ro);
    forall m | IsMatching(left, right, tolerance, m)
      ensures Within(m, From(lo, 0), From(ro, 0))
    {
    }
  }

  lemma AllFromStart(rows: seq<Row>, order: seq<nat>)
    requires IsOrder(Times(rows), order)
    ensures forall p: nat :: p < |rows| ==> p in From(order, 0)
  {
    forall p: nat | p < |rows| ensures p in From(order, 0) {
      assert p in order;
    }
  }
}
