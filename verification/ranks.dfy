/** Average ranks with ties and the rank correlation built on them (calibration.py, `_ranks` and
    `_correlation`), over exact reals. */
module Ranks {
  import opened Common
  import opened Ordering

  // ----- the definition of an average rank

  function Smaller(values: seq<real>, v: real): nat {
    |set i | 0 <= i < |values| && values[i] < v|
  }

  function Equal(values: seq<real>, v: real): nat {
    |set i | 0 <= i < |values| && values[i] == v|
  }

  /** Zero-based average rank: the smaller values plus half of the other equal ones. */
  function AverageRank(values: seq<real>, i: nat): real
    requires i < |values|
  {
    Smaller(values, values[i]) as real + (Equal(values, values[i]) - 1) as real / 2.0
  }

  function RankList(values: seq<real>): (r: seq<real>)
    ensures |r| == |values| && forall i :: 0 <= i < |r| ==> r[i] == AverageRank(values, i)
  {
    seq(|values|, i requires 0 <= i < |values| => AverageRank(values, i))
  }

  // ----- the nested loops of `_ranks`

  /** The positions listed in a stretch of the order. */
  ghost function Listed(order: seq<nat>, from: nat, to: nat): (s: set<int>)
    requires from <= to <= |order|
  {
    set k | from <= k < to :: order[k]
  }

  lemma {:induction false} ListedSize(order: seq<nat>, from: nat, to: nat)
    requires from <= to <= |order| && Distinct(order)
    ensures |Listed(order, from, to)| == to - from
  {
    if from < to {
      ListedSize(order, from, to - 1);
      assert Listed(order, from, to) == Listed(order, from, to - 1) + {order[to - 1]};
      assert order[to - 1] !in Listed(order, from, to - 1);
    }
  }

  lemma AllRanked(values: seq<real>, order: seq<nat>, output: seq<real>)
    requires IsOrder(values, order) && |output| == |values|
    requires forall k :: 0 <= k < |order| ==> output[order[k]] == AverageRank(values, order[k])
    ensures output == RankList(values)
  {
    forall p: nat | p < |values|
      ensures output[p] == AverageRank(values, p)
    {
      assert p in order;
    }
  }

  /** A maximal stretch of equal keys in the order ranks its members as the definition says. */
  lemma StretchRank(values: seq<real>, order: seq<nat>, start: nat, end: nat, k: nat)
    requires IsOrder(values, order) && start <= k < end <= |order|
    requires forall j :: 0 <= j < start ==> values[order[j]] < values[order[start]]
    requires forall j :: start <= j < end ==> values[order[j]] == values[order[start]]
    requires forall j :: end <= j < |order| ==> values[order[start]] < values[order[j]]
    ensures AverageRank(values, order[k]) == (start + end - 1) as real / 2.0
  {
    var v := values[order[k]];
    forall p: nat | p < |values|
      ensures p in Listed(order, 0, start) <==> values[p] < v
      ensures p in Listed(order, start, end) <==> values[p] == v
    {
      assert p in order;
      var j :| 0 <= j < |order| && order[j] == p;
      assert j < start ==> order[j] in Listed(order, 0, start);
      assert start <= j < end ==> order[j] in Listed(order, start, end);
    }
    assert (set i | 0 <= i < |values| && values[i] < v) == Listed(order, 0, start);
    assert (set i | 0 <= i < |values| && values[i] == v) == Listed(order, start, end);
    ListedSize(order, 0, start);
    ListedSize(order, start, end);
  }

  /** The inner loop: one rank for a whole stretch. */
  method FillStretch(output: array<real>, values: seq<real>, ordered: seq<nat>, start: nat, end: nat)
    requires IsOrder(values, ordered) && output.Length == |values| && start <= end <= |ordered|
    modifies output
    ensures forall k :: 0 <= k < start ==> output[ordered[k]] == old(output[ordered[k]])
    ensures forall k :: start <= k < end ==> output[ordered[k]] == (start + end - 1) as real / 2.0
  {
    var rank := (start + end - 1) as real / 2.0;
    for index := start to end
      invariant forall k :: 0 <= k < start ==> output[ordered[k]] == old(output[ordered[k]])
      invariant forall k :: start <= k < index ==> output[ordered[k]] == rank
    {
      output[ordered[index]] := rank;
    }
  }

  method ComputeRanks(values: seq<real>) returns (output: array<real>)
    ensures fresh(output) && output[..] == RankList(values)
  {
    var ordered := Order(values);
    output := new real[|values|](_ => 0.0);
    var start := 0;
    while start < |ordered|
      invariant 0 <= start <= |ordered| && output.Length == |values|
      invariant forall j, k :: 0 <= j < start <= k < |ordered| ==> values[ordered[j]] < values[ordered[k]]
      invariant forall k :: 0 <= k < start ==> output[ordered[k]] == AverageRank(values, ordered[k])
    {
      var end := StretchEnd(values, ordered, start);
      FillStretch(output, values, ordered, start, end);
      forall k | start <= k < end
        ensures output[ordered[k]] == AverageRank(values, ordered[k])
      {
        StretchRank(values, ordered, start, end, k);
      }
      start := end;
    }
    AllRanked(values, ordered, output[..]);
  }

  /** The inner loop that looks for the end of a stretch of equal keys. */
  method StretchEnd(values: seq<real>, ordered: seq<nat>, start: nat) returns (end: nat)
    requires IsOrder(values, ordered) && start < |ordered|
    ensures start < end <= |ordered|
    ensures forall j :: start <= j < end ==> values[ordered[j]] == values[ordered[start]]
    ensures forall j :: end <= j < |ordered| ==> values[ordered[start]] < values[ordered[j]]
  {
    end := start + 1;
    while end < |ordered| && values[ordered[end]] == values[ordered[start]]
      invariant start < end <= |ordered|
      invariant forall j :: start <= j < end ==> values[ordered[j]] == values[ordered[start]]
    {
      end := end + 1;
    }
    forall j | end <= j < |ordered|
      ensures values[ordered[start]] < values[ordered[j]]
    {
      assert Before(values, ordered[start], ordered[end]);
      if end < j { assert Before(values, ordered[end], ordered[j]); }
    }
  }

  // ----- what the ranks are

  /** How a value `u` counts towards the doubled rank of `v`. */
  function Weight(v: real): real -> real {
    u => if u < v then 2.0 else if u == v then 1.0 else 0.0
  }

  function Beaten(values: seq<real>, v: real): real {
    SumBy(values, Weight(v))
  }

  lemma CountsSnoc(init: seq<real>, u: real, v: real)
    ensures Smaller(init + [u], v) == Smaller(init, v) + if u < v then 1 else 0
    ensures Equal(init + [u], v) == Equal(init, v) + if u == v then 1 else 0
  {
    SmallerSnoc(init, u, v);
    EqualSnoc(init, u, v);
  }

  lemma SmallerSnoc(init: seq<real>, u: real, v: real)
    ensures Smaller(init + [u], v) == Smaller(init, v) + if u < v then 1 else 0
  {
    var values, n := init + [u], |init|;
    var s0, s1 := (set i | 0 <= i < |init| && init[i] < v), (set i | 0 <= i < |values| && values[i] < v);
    assert s1 == if u < v then s0 + {n} else s0;
    assert n !in s0;
  }

  lemma EqualSnoc(init: seq<real>, u: real, v: real)
    ensures Equal(init + [u], v) == Equal(init, v) + if u == v then 1 else 0
  {
    var values, n := init + [u], |init|;
    var s0, s1 := (set i | 0 <= i < |init| && init[i] == v), (set i | 0 <= i < |values| && values[i] == v);
    assert s1 == if u == v then s0 + {n} else s0;
    assert n !in s0;
  }

  lemma {:induction false} BeatenCounts(values: seq<real>, v: real)
    ensures Beaten(values, v) == 2.0 * Smaller(values, v) as real + Equal(values, v) as real
  {
    var n := |values| - 1;
    if values != [] {
      var init := values[..n];
      BeatenCounts(init, v);
      CountsSnoc(init, values[n], v);
      assert values == init + [values[n]];
    }
  }

  lemma RankIsBeaten(values: seq<real>, i: nat)
    requires i < |values|
    ensures 2.0 * AverageRank(values, i) == Beaten(values, values[i]) - 1.0
  {
    BeatenCounts(values, values[i]);
  }

  /** Ranks are attached to values, not places: permuting the input permutes the ranks. */
  lemma RanksCommuteWithPermutation(a: seq<real>, b: seq<real>, i: nat, j: nat)
    requires multiset(a) == multiset(b) && i < |a| && j < |b| && a[i] == b[j]
    ensures AverageRank(a, i) == AverageRank(b, j)
  {
    RankIsBeaten(a, i);
    RankIsBeaten(b, j);
    SumPermuted(a, b, Weight(a[i]));
  }

  /** `b` orders its places as `a` does, as the image under a strictly increasing function would. */
  ghost predicate SameShape(a: seq<real>, b: seq<real>) {
    |a| == |b| && forall i, j :: 0 <= i < |a| && 0 <= j < |a| ==> (a[i] < a[j] <==> b[i] < b[j])
  }

  lemma RanksKeepUnderMonotoneMaps(a: seq<real>, b: seq<real>)
    requires SameShape(a, b)
    ensures RankList(a) == RankList(b)
  {
    forall i | 0 <= i < |a|
      ensures AverageRank(a, i) == AverageRank(b, i)
    {
      forall k | 0 <= k < |a| ensures Weight(a[i])(a[k]) == Weight(b[i])(b[k]) {
        assert (a[k] < a[i] <==> b[k] < b[i]) && (a[i] < a[k] <==> b[i] < b[k]);
      }
      SumPointwise(a, Weight(a[i]), b, Weight(b[i]));
      RankIsBeaten(a, i);
      RankIsBeaten(b, i);
    }
  }

  /** The doubled ranks of a probe list against `values`, plus one each. */
  function BeatenBy(values: seq<real>): real -> real {
    v => Beaten(values, v)
  }

  function WeightOf(u: real): real -> real {
    v => Weight(v)(u)
  }

  lemma {:induction false} BeatenTotalStep(values: seq<real>, x: real, probes: seq<real>)
    ensures SumBy(probes, BeatenBy(values + [x])) == SumBy(probes, BeatenBy(values)) + SumBy(probes, WeightOf(x))
  {
    if probes != [] {
      BeatenTotalStep(values, x, probes[..|probes| - 1]);
      assert (values + [x])[..|values|] == values;
    }
  }

  /** A pair of places contributes 2 to the two doubled ranks together. */
  lemma {:induction false} PairsCancel(values: seq<real>, x: real)
    ensures Beaten(values, x) + SumBy(values, WeightOf(x)) == 2.0 * |values| as real
  {
    if values != [] {
      var u := values[|values| - 1];
      PairsCancel(values[..|values| - 1], x);
      assert WeightOf(x)(u) == Weight(u)(x);
      assert Weight(x)(u) == if u < x then 2.0 else if u == x then 1.0 else 0.0;
      assert Weight(u)(x) == if x < u then 2.0 else if x == u then 1.0 else 0.0;
    }
  }

  lemma {:induction false} BeatenTotal(values: seq<real>)
    ensures SumBy(values, BeatenBy(values)) == |values| as real * |values| as real
  {
    if values != [] {
      var n := |values| - 1;
      var init, x := values[..n], values[n];
      assert values == init + [x];
      BeatenTotal(init);
      BeatenTotalStep(init, x, init);
      PairsCancel(init, x);
      assert SumBy(values, BeatenBy(values)) == SumBy(init, BeatenBy(values)) + Beaten(values, x);
      assert Beaten(values, x) == Beaten(init, x) + 1.0;
      assert (n + 1) as real * (n + 1) as real == n as real * n as real + 2.0 * n as real + 1.0;
    }
  }

  /** The ranks of n values add up to n(n-1)/2, ties or not. */
  lemma RanksSum(values: seq<real>)
    ensures 2.0 * Total(RankList(values)) == |values| as real * (|values| as real - 1.0)
  {
    BeatenTotal(values);
    RankPrefixSum(values, |values|);
    assert values[..|values|] == values && RankList(values)[..|values|] == RankList(values);
  }

  lemma {:induction false} RankPrefixSum(values: seq<real>, k: nat)
    requires k <= |values|
    ensures 2.0 * Total(RankList(values)[..k]) == SumBy(values[..k], BeatenBy(values)) - k as real
  {
    if k > 0 {
      RankPrefixSum(values, k - 1);
      RankIsBeaten(values, k - 1);
      assert RankList(values)[..k][..k - 1] == RankList(values)[..k - 1];
      assert values[..k][..k - 1] == values[..k - 1];
    }
  }
}
