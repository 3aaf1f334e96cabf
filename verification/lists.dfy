/** Filtering, counting and sorting of lists, and what of it survives a permutation. */
module Lists {
  import opened Common
  import opened Ordering

  function FilterMap<S, T>(s: seq<S>, g: S -> Option<T>): seq<T> {
    if s == [] then []
    else
      var init := FilterMap(s[..|s| - 1], g);
      match g(s[|s| - 1])
      case Some(t) => init + [t]
      case None => init
  }

  function CountIf<S>(s: seq<S>, p: S -> bool): (n: nat)
    ensures n <= |s|
  {
    if s == [] then 0 else CountIf(s[..|s| - 1], p) + if p(s[|s| - 1]) then 1 else 0
  }

  lemma FilterMapSnoc<S, T>(s: seq<S>, x: S, g: S -> Option<T>)
    ensures FilterMap(s + [x], g) == FilterMap(s, g) + if g(x).Some? then [g(x).value] else []
  {
    assert (s + [x])[..|s|] == s;
  }

  lemma CountIfSnoc<S>(s: seq<S>, x: S, p: S -> bool)
    ensures CountIf(s + [x], p) == CountIf(s, p) + if p(x) then 1 else 0
  {
    assert (s + [x])[..|s|] == s;
  }

  lemma {:induction false} CountAgrees<S>(s: seq<S>, p: S -> bool, q: S -> bool)
    requires forall i :: 0 <= i < |s| ==> p(s[i]) == q(s[i])
    ensures CountIf(s, p) == CountIf(s, q)
  {
    if s != [] { CountAgrees(s[..|s| - 1], p, q); }
  }

  function Indicator<S>(p: S -> bool): S -> real {
    x => if p(x) then 1.0 else 0.0
  }

  lemma {:induction false} CountIsSum<S>(s: seq<S>, p: S -> bool)
    ensures CountIf(s, p) as real == SumBy(s, Indicator(p))
  {
    if s != [] { CountIsSum(s[..|s| - 1], p); }
  }

  lemma CountPermuted<S>(s: seq<S>, t: seq<S>, p: S -> bool)
    requires multiset(s) == multiset(t)
    ensures CountIf(s, p) == CountIf(t, p)
  {
    CountIsSum(s, p);
    CountIsSum(t, p);
    SumPermuted(s, t, Indicator(p));
  }

  lemma {:induction false} NoneCounted<S>(s: seq<S>, p: S -> bool)
    ensures CountIf(s, p) == 0 <==> forall i :: 0 <= i < |s| ==> !p(s[i])
  {
    if s != [] {
      var init := s[..|s| - 1];
      NoneCounted(init, p);
      assert forall i :: 0 <= i < |init| ==> init[i] == s[i];
    }
  }

  lemma {:induction false} FilterMapRemove<S, T>(s: seq<S>, k: nat, g: S -> Option<T>)
    requires k < |s|
    ensures multiset(FilterMap(s, g))
            == multiset(FilterMap(s[..k] + s[k + 1..], g)) + if g(s[k]).Some? then multiset{g(s[k]).value}
              else multiset{}
  {
    var n := |s| - 1;
    assert s == s[..n] + [s[n]];
    FilterMapSnoc(s[..n], s[n], g);
    if k == n {
      assert s[..k] + s[k + 1..] == s[..n];
    } else {
      FilterMapRemove(s[..n], k, g);
      assert s[k + 1..] == s[..n][k + 1..] + [s[n]];
      assert s[..k] + s[k + 1..] == (s[..n][..k] + s[..n][k + 1..]) + [s[n]];
      FilterMapSnoc(s[..n][..k] + s[..n][k + 1..], s[n], g);
    }
  }

  lemma {:induction false} FilterMapPermuted<S, T>(s: seq<S>, t: seq<S>, g: S -> Option<T>)
    requires multiset(s) == multiset(t)
    ensures multiset(FilterMap(s, g)) == multiset(FilterMap(t, g))
    decreases |s|
  {
    SameLength(s, t);
    if s != [] {
      var n := |s| - 1;
      MultisetRemove(s, n);
      assert s[n] in multiset(t);
      var k :| 0 <= k < |t| && t[k] == s[n];
      MultisetRemove(t, k);
      assert multiset(s[..n] + s[n + 1..]) == multiset(s) - multiset{s[n]};
      assert multiset(t[..k] + t[k + 1..]) == multiset(t) - multiset{t[k]};
      FilterMapPermuted(s[..n] + s[n + 1..], t[..k] + t[k + 1..], g);
      FilterMapRemove(s, n, g);
      FilterMapRemove(t, k, g);
    }
  }

  lemma {:induction false} FilterMapHas<S, T>(s: seq<S>, g: S -> Option<T>, t: T)
    ensures t in FilterMap(s, g) <==> exists i :: 0 <= i < |s| && g(s[i]) == Some(t)
  {
    if s != [] {
      var init := s[..|s| - 1];
      FilterMapHas(init, g, t);
      assert forall i :: 0 <= i < |init| ==> init[i] == s[i];
    }
  }

  // ----- sorting values

  ghost predicate Ascending(s: seq<real>) {
    forall i, j :: 0 <= i < j < |s| ==> s[i] <= s[j]
  }

  function InsertValue(s: seq<real>, v: real): (r: seq<real>)
    ensures |r| == |s| + 1
  {
    if s == [] || s[|s| - 1] <= v then s + [v] else InsertValue(s[..|s| - 1], v) + [s[|s| - 1]]
  }

  lemma {:induction false} InsertKeepsValues(s: seq<real>, v: real)
    ensures multiset(InsertValue(s, v)) == multiset(s) + multiset{v}
  {
    if s != [] && s[|s| - 1] > v {
      assert s == s[..|s| - 1] + [s[|s| - 1]];
      InsertKeepsValues(s[..|s| - 1], v);
    }
  }

  lemma AscendingSnoc(s: seq<real>, x: real)
    requires Ascending(s) && forall i :: 0 <= i < |s| ==> s[i] <= x
    ensures Ascending(s + [x])
  {
  }

  lemma InsertedBelow(s: seq<real>, v: real, x: real)
    requires v <= x && forall i :: 0 <= i < |s| ==> s[i] <= x
    ensures forall i :: 0 <= i < |InsertValue(s, v)| ==> InsertValue(s, v)[i] <= x
  {
    var r := InsertValue(s, v);
    InsertKeepsValues(s, v);
    forall i | 0 <= i < |r|
      ensures r[i] <= x
    {
      assert r[i] in multiset(r);
      assert r[i] in s || r[i] == v;
    }
  }

  lemma {:induction false} InsertKeepsAscending(s: seq<real>, v: real)
    requires Ascending(s)
    ensures Ascending(InsertValue(s, v))
  {
    if s == [] || s[|s| - 1] <= v {
      AscendingSnoc(s, v);
    } else {
      var n := |s| - 1;
      InsertKeepsAscending(s[..n], v);
      InsertedBelow(s[..n], v, s[n]);
      AscendingSnoc(InsertValue(s[..n], v), s[n]);
    }
  }

  function Sorted(values: seq<real>): (r: seq<real>)
    ensures |r| == |values|
  {
    if values == [] then [] else InsertValue(Sorted(values[..|values| - 1]), values[|values| - 1])
  }

  lemma {:induction false} SortedIsSorted(values: seq<real>)
    ensures Ascending(Sorted(values)) && multiset(Sorted(values)) == multiset(values)
  {
    if values != [] {
      var n := |values| - 1;
      SortedIsSorted(values[..n]);
      assert values == values[..n] + [values[n]];
      InsertKeepsAscending(Sorted(values[..n]), values[n]);
      InsertKeepsValues(Sorted(values[..n]), values[n]);
    }
  }

  /** The mean of the one or two values in the middle of an ascending list. */
  function MiddleOf(s: seq<real>): real
    requires s != []
  {
    if |s| % 2 == 1 then s[|s| / 2] else (s[|s| / 2 - 1] + s[|s| / 2]) / 2.0
  }

  function Median(values: seq<real>): real
    requires values != []
  {
    MiddleOf(Sorted(values))
  }

  ghost predicate AllNonNegative(s: seq<real>) {
    forall i :: 0 <= i < |s| ==> s[i] >= 0.0
  }

  lemma MedianNonNegative(values: seq<real>)
    requires values != [] && AllNonNegative(values)
    ensures Median(values) >= 0.0
  {
    var s := Sorted(values);
    SortedIsSorted(values);
    forall i | 0 <= i < |s|
      ensures s[i] >= 0.0
    {
      assert s[i] in multiset(s);
      assert s[i] in values;
    }
  }

  lemma LastIsGreatest(s: seq<real>, x: real)
    requires Ascending(s) && x in multiset(s)
    ensures s != [] && x <= s[|s| - 1]
  {
  }

  lemma SameLast(s: seq<real>, t: seq<real>)
    requires Ascending(s) && Ascending(t) && multiset(s) == multiset(t) && s != []
    ensures |s| == |t| && s[|s| - 1] == t[|t| - 1]
    ensures Ascending(s[..|s| - 1]) && Ascending(t[..|t| - 1])
    ensures multiset(s[..|s| - 1]) == multiset(t[..|t| - 1])
  {
    SameLength(s, t);
    LastIsGreatest(s, t[|t| - 1]);
    LastIsGreatest(t, s[|s| - 1]);
    DropLast(s);
    DropLast(t);
  }

  lemma {:induction false} AscendingIsUnique(s: seq<real>, t: seq<real>)
    requires Ascending(s) && Ascending(t) && multiset(s) == multiset(t)
    ensures s == t
    decreases |s|
  {
    SameLength(s, t);
    if s != [] {
      var n := |s| - 1;
      SameLast(s, t);
      AscendingIsUnique(s[..n], t[..n]);
      assert s == s[..n] + [s[n]];
      assert t == t[..n] + [t[n]];
    }
  }

  lemma DropLast<T>(s: seq<T>)
    requires s != []
    ensures multiset(s[..|s| - 1]) == multiset(s) - multiset{s[|s| - 1]}
  {
    assert s == s[..|s| - 1] + [s[|s| - 1]];
  }

  lemma SortedPermuted(s: seq<real>, t: seq<real>)
    requires multiset(s) == multiset(t)
    ensures Sorted(s) == Sorted(t)
  {
    SortedIsSorted(s);
    SortedIsSorted(t);
    AscendingIsUnique(Sorted(s), Sorted(t));
  }

  // ----- sorted sets of keys

  ghost predicate Rising(s: seq<real>) {
    forall i, j :: 0 <= i < j < |s| ==> s[i] < s[j]
  }

  function InsertKey(s: seq<real>, v: real): (r: seq<real>)
    ensures forall x :: x in r <==> x in s || x == v
  {
    if s == [] || s[|s| - 1] < v then s + [v]
    else if s[|s| - 1] == v then s
    else
      assert s == s[..|s| - 1] + [s[|s| - 1]];
      InsertKey(s[..|s| - 1], v) + [s[|s| - 1]]
  }

  lemma {:induction false} InsertKeepsRising(s: seq<real>, v: real)
    requires Rising(s)
    ensures Rising(InsertKey(s, v))
  {
    if s != [] && s[|s| - 1] > v {
      var n := |s| - 1;
      InsertKeepsRising(s[..n], v);
      var r := InsertKey(s[..n], v);
      forall i | 0 <= i < |r|
        ensures r[i] < s[n]
      {
        assert r[i] in r;
        assert r[i] in s[..n] || r[i] == v;
      }
    }
  }

  /** `sorted(set(values))`. */
  function SortedKeys(values: seq<real>): (r: seq<real>)
    ensures Rising(r) && forall x :: x in r <==> x in values
  {
    if values == [] then []
    else
      var n := |values| - 1;
      assert values == values[..n] + [values[n]];
      InsertKeepsRising(SortedKeys(values[..n]), values[n]);
      InsertKey(SortedKeys(values[..n]), values[n])
  }

  lemma HasFirst(t: seq<real>)
    ensures t == [] || t[0] in t
  {
  }

  ghost predicate SameMembers(s: seq<real>, t: seq<real>) {
    forall x :: x in s <==> x in t
  }

  /** Two rising lists of the same elements have the same last one, and the same elements before it. */
  lemma SameRisingLast(s: seq<real>, t: seq<real>)
    requires Rising(s) && Rising(t) && s != [] && t != [] && SameMembers(s, t)
    ensures s[|s| - 1] == t[|t| - 1]
    ensures SameMembers(s[..|s| - 1], t[..|t| - 1])
  {
    var n, m := |s| - 1, |t| - 1;
    assert s[n] in s && t[m] in t;
    assert s[n] in t && t[m] in s;
    assert s[n] == t[m];
    assert s == s[..n] + [s[n]] && t == t[..m] + [t[m]];
    forall x
      ensures x in s[..n] <==> x in t[..m]
    {
      assert x in s <==> x in t;
    }
  }

  lemma {:induction false} RisingIsUnique(s: seq<real>, t: seq<real>)
    requires Rising(s) && Rising(t) && SameMembers(s, t)
    ensures s == t
    decreases |s|
  {
    HasFirst(t);
    if s != [] {
      assert s[0] in s && s[0] in t;
      SameRisingLast(s, t);
      RisingIsUnique(s[..|s| - 1], t[..|t| - 1]);
      assert s == s[..|s| - 1] + [s[|s| - 1]] && t == t[..|t| - 1] + [t[|t| - 1]];
    }
  }

  lemma KeysPermuted(s: seq<real>, t: seq<real>)
    requires multiset(s) == multiset(t)
    ensures SortedKeys(s) == SortedKeys(t)
  {
    forall x ensures x in s <==> x in t {
      assert x in s <==> x in multiset(s);
      assert x in t <==> x in multiset(t);
    }
    RisingIsUnique(SortedKeys(s), SortedKeys(t));
  }
}
