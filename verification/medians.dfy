/** The median, by counting: what the sorted list is for. */
module Medians {
  import opened Common
  import opened Ordering
  import opened Lists

  function Below(x: real): real -> bool {
    v => v < x
  }

  function AtMost(x: real): real -> bool {
    v => v <= x
  }

  /** `x` is the value at place `k` of the values in ascending order: at most `k` are smaller, and more
      than `k` are not greater. */
  predicate IsAtPlace(values: seq<real>, x: real, k: int) {
    x in values && CountIf(values, Below(x)) <= k < CountIf(values, AtMost(x))
  }

  /** The one or two values in the middle. */
  predicate AreMiddle(values: seq<real>, lower: real, upper: real) {
    IsAtPlace(values, lower, (|values| - 1) / 2) && IsAtPlace(values, upper, |values| / 2)
  }

  /** The mean of the values in the middle. */
  ghost predicate IsMedian(values: seq<real>, m: real) {
    exists lower, upper :: AreMiddle(values, lower, upper) && m == (lower + upper) / 2.0
  }

  lemma {:induction false} CountUpTo(s: seq<real>, p: real -> bool, k: nat)
    requires k <= |s| && forall i :: k <= i < |s| ==> !p(s[i])
    ensures CountIf(s, p) <= k
  {
    if k < |s| { CountUpTo(s[..|s| - 1], p, k); }
  }

  lemma {:induction false} CountAtLeast(s: seq<real>, p: real -> bool, k: nat)
    requires k <= |s| && forall i :: 0 <= i < k ==> p(s[i])
    ensures CountIf(s, p) >= k
  {
    if k > 0 && k < |s| {
      CountAtLeast(s[..|s| - 1], p, k);
    } else if k > 0 {
      CountAtLeast(s[..k - 1], p, k - 1);
      assert s[..|s| - 1] == s[..k - 1];
    }
  }

  lemma AscendingPlace(s: seq<real>, k: nat)
    requires Ascending(s) && k < |s|
    ensures CountIf(s, Below(s[k])) <= k < CountIf(s, AtMost(s[k]))
  {
    CountUpTo(s, Below(s[k]), k);
    CountAtLeast(s, AtMost(s[k]), k + 1);
  }

  lemma SamePlace(s: seq<real>, values: seq<real>, x: real, k: nat)
    requires multiset(s) == multiset(values) && IsAtPlace(s, x, k)
    ensures IsAtPlace(values, x, k)
  {
    CountPermuted(s, values, Below(x));
    CountPermuted(s, values, AtMost(x));
    assert x in multiset(s);
    assert x in multiset(values);
  }

  lemma SortedPlace(values: seq<real>, k: nat)
    requires k < |values|
    ensures IsAtPlace(values, Sorted(values)[k], k)
  {
    SortedIsSorted(values);
    AscendingPlace(Sorted(values), k);
    SamePlace(Sorted(values), values, Sorted(values)[k], k);
  }

  /** Only one value is at a place. */
  lemma OnePlace(values: seq<real>, x: real, y: real, k: int)
    requires IsAtPlace(values, x, k) && IsAtPlace(values, y, k)
    ensures x == y
  {
    if x < y { CountIsMonotone(values, AtMost(x), Below(y)); }
    if y < x { CountIsMonotone(values, AtMost(y), Below(x)); }
  }

  lemma {:induction false} CountIsMonotone(values: seq<real>, p: real -> bool, q: real -> bool)
    requires forall v :: p(v) ==> q(v)
    ensures CountIf(values, p) <= CountIf(values, q)
  {
    if values != [] { CountIsMonotone(values[..|values| - 1], p, q); }
  }

  lemma MiddleFormula(s: seq<real>)
    requires s != []
    ensures MiddleOf(s) == (s[(|s| - 1) / 2] + s[|s| / 2]) / 2.0
  {
  }

  lemma MiddleOfSorted(values: seq<real>)
    requires values != []
    ensures var s, n := Sorted(values), |values|;
      AreMiddle(values, s[(n - 1) / 2], s[n / 2]) && Median(values) == (s[(n - 1) / 2] + s[n / 2]) / 2.0
  {
    SortedPlace(values, (|values| - 1) / 2);
    SortedPlace(values, |values| / 2);
    MiddleFormula(Sorted(values));
  }

  /** `Median` is the median, and there is no other. */
  lemma MedianExactly(values: seq<real>, m: real)
    requires values != []
    ensures IsMedian(values, m) <==> m == Median(values)
  {
    var s, n := Sorted(values), |values|;
    MiddleOfSorted(values);
    if IsMedian(values, m) {
      var lower, upper :| AreMiddle(values, lower, upper) && m == (lower + upper) / 2.0;
      OnePlace(values, lower, s[(n - 1) / 2], (n - 1) / 2);
      OnePlace(values, upper, s[n / 2], n / 2);
    }
  }
}
