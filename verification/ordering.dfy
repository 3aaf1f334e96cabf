/** `sorted(..., key=...)` on real keys, as the stable order of the positions, and sums that do not
    depend on order. */
module Ordering {

  // ----- the stable order of positions by key

  /** By key, and by position among equal keys. */
  predicate Before(keys: seq<real>, x: nat, y: nat)
    requires x < |keys| && y < |keys|
  {
    keys[x] < keys[y] || (keys[x] == keys[y] && x < y)
  }

  ghost predicate InRange(n: nat, r: seq<nat>) {
    forall i :: 0 <= i < |r| ==> r[i] < n
  }

  /** `r` lists every position of `keys` once, by key and then by position. */
  ghost predicate IsOrder(keys: seq<real>, r: seq<nat>) {
    && |r| == |keys| && InRange(|keys|, r)
    && (forall i, j :: 0 <= i < j < |r| ==> Before(keys, r[i], r[j]))
    && (forall p :: 0 <= p < |keys| ==> p in r)
  }

  /** Where position `p` belongs in the order of earlier positions: after every key not above its own. */
  function Slot(keys: seq<real>, r: seq<nat>, p: nat): (k: nat)
    requires p < |keys| && forall i :: 0 <= i < |r| ==> r[i] < |keys|
    ensures k <= |r|
    ensures k > 0 ==> keys[r[k - 1]] <= keys[p]
    ensures forall i :: k <= i < |r| ==> keys[p] < keys[r[i]]
  {
    if r == [] then 0
    else if keys[r[|r| - 1]] <= keys[p] then |r|
    else Slot(keys, r[..|r| - 1], p)
  }

  function Order(keys: seq<real>): (r: seq<nat>)
    ensures IsOrder(keys, r)
  {
    if keys == [] then []
    else
      var n := |keys| - 1;
      var rest := Order(keys[..n]);
      var k := Slot(keys, rest, n);
      InsertKeepsOrder(keys, rest, k);
      Insert(rest, k, n)
  }

  function Insert(rest: seq<nat>, k: nat, p: nat): (r: seq<nat>)
    requires k <= |rest|
    ensures |r| == |rest| + 1 && forall i :: 0 <= i < |r| ==>
      r[i] == if i < k then rest[i] else if i == k then p else rest[i - 1]
    ensures p in r && forall q :: q in rest ==> q in r
  {
    var r := rest[..k] + [p] + rest[k..];
    assert r[k] == p;
    assert rest == rest[..k] + rest[k..];
    r
  }

  lemma InsertKeepsOrder(keys: seq<real>, rest: seq<nat>, k: nat)
    requires keys != [] && IsOrder(keys[..|keys| - 1], rest)
    requires k <= |rest| && (k > 0 ==> keys[rest[k - 1]] <= keys[|keys| - 1])
    requires forall i :: k <= i < |rest| ==> keys[|keys| - 1] < keys[rest[i]]
    ensures IsOrder(keys, Insert(rest, k, |keys| - 1))
  {
    var n := |keys| - 1;
    var r := Insert(rest, k, n);
    forall i, j | 0 <= i < j < |r|
      ensures Before(keys, r[i], r[j])
    {
      InsertedPair(keys, rest, k, i, j);
    }
  }

  lemma InsertedPair(keys: seq<real>, rest: seq<nat>, k: nat, i: nat, j: nat)
    requires keys != [] && InRange(|keys| - 1, rest)
    requires forall i, j :: 0 <= i < j < |rest| ==> Before(keys[..|keys| - 1], rest[i], rest[j])
    requires k <= |rest| && (k > 0 ==> keys[rest[k - 1]] <= keys[|keys| - 1])
    requires forall i :: k <= i < |rest| ==> keys[|keys| - 1] < keys[rest[i]]
    requires i < j <= |rest|
    ensures var r := Insert(rest, k, |keys| - 1); InRange(|keys|, r) && Before(keys, r[i], r[j])
  {
    var n := |keys| - 1;
    if j < k { assert Before(keys[..n], rest[i], rest[j]); }
    else if j == k { if i < k - 1 { assert Before(keys[..n], rest[i], rest[k - 1]); } }
    else if i < k { assert Before(keys[..n], rest[i], rest[j - 1]); }
    else if i > k { assert Before(keys[..n], rest[i - 1], rest[j - 1]); }
  }

  // ----- sums

  function SumBy<T>(s: seq<T>, f: T -> real): real {
    if s == [] then 0.0 else SumBy(s[..|s| - 1], f) + f(s[|s| - 1])
  }

  function Identity(x: real): real { x }

  function Total(s: seq<real>): real {
    SumBy(s, Identity)
  }

  lemma {:induction false} SumRemove<T>(s: seq<T>, k: nat, f: T -> real)
    requires k < |s|
    ensures SumBy(s, f) == SumBy(s[..k] + s[k + 1..], f) + f(s[k])
  {
    var n := |s| - 1;
    if k == n {
      assert s[..k] + s[k + 1..] == s[..n];
    } else {
      SumRemove(s[..n], k, f);
      assert (s[..k] + s[k + 1..])[..n - 1] == s[..n][..k] + s[..n][k + 1..];
    }
  }

  lemma MultisetRemove<T>(s: seq<T>, k: nat)
    requires k < |s|
    ensures multiset(s) == multiset(s[..k] + s[k + 1..]) + multiset{s[k]}
  {
    assert s == s[..k] + [s[k]] + s[k + 1..];
  }

  /** A sum depends on the multiset of its terms only. */
  /** Taking the same element out of two arrangements leaves arrangements of the same elements. */
  lemma RemovedFromBoth<T>(s: seq<T>, t: seq<T>, k: nat)
    requires multiset(s) == multiset(t) && s != [] && k < |t| && t[k] == s[|s| - 1]
    ensures multiset(s[..|s| - 1]) == multiset(t[..k] + t[k + 1..])
  {
    var n := |s| - 1;
    MultisetRemove(s, n);
    MultisetRemove(t, k);
    assert s[..n] + s[n + 1..] == s[..n];
    assert multiset(s[..n]) == multiset(s) - multiset{s[n]};
    assert multiset(t[..k] + t[k + 1..]) == multiset(t) - multiset{t[k]};
  }

  lemma {:induction false} SumPermuted<T>(s: seq<T>, t: seq<T>, f: T -> real)
    requires multiset(s) == multiset(t)
    ensures SumBy(s, f) == SumBy(t, f)
    decreases |s|
  {
    SameLength(s, t);
    if s != [] {
      var n := |s| - 1;
      assert s[n] in multiset(t);
      var k :| 0 <= k < |t| && t[k] == s[n];
      RemovedFromBoth(s, t, k);
      SumRemove(t, k, f);
      SumPermuted(s[..n], t[..k] + t[k + 1..], f);
    }
  }

  lemma SameLength<T>(s: seq<T>, t: seq<T>)
    requires multiset(s) == multiset(t)
    ensures |s| == |t|
  {
    assert |multiset(s)| == |s| && |multiset(t)| == |t|;
  }

  /** Termwise equal sums over equally long sequences. */
  lemma {:induction false} SumPointwise<S, T>(s: seq<S>, f: S -> real, t: seq<T>, g: T -> real)
    requires |s| == |t| && forall i :: 0 <= i < |s| ==> f(s[i]) == g(t[i])
    ensures SumBy(s, f) == SumBy(t, g)
  {
    if s != [] { SumPointwise(s[..|s| - 1], f, t[..|t| - 1], g); }
  }

  function MapSeq<S, T>(s: seq<S>, g: S -> T): (r: seq<T>)
    ensures |r| == |s| && forall i :: 0 <= i < |s| ==> r[i] == g(s[i])
  {
    if s == [] then [] else MapSeq(s[..|s| - 1], g) + [g(s[|s| - 1])]
  }

  lemma MapSnoc<S, T>(s: seq<S>, x: S, g: S -> T)
    ensures MapSeq(s + [x], g) == MapSeq(s, g) + [g(x)]
  {
  }

  lemma {:induction false} MapRemove<S, T>(s: seq<S>, k: nat, g: S -> T)
    requires k < |s|
    ensures multiset(MapSeq(s, g)) == multiset(MapSeq(s[..k] + s[k + 1..], g)) + multiset{g(s[k])}
  {
    var r := MapSeq(s, g);
    MultisetRemove(r, k);
    assert r[..k] + r[k + 1..] == MapSeq(s[..k] + s[k + 1..], g);
  }

  lemma {:induction false} MapPermuted<S, T>(s: seq<S>, t: seq<S>, g: S -> T)
    requires multiset(s) == multiset(t)
    ensures multiset(MapSeq(s, g)) == multiset(MapSeq(t, g))
    decreases |s|
  {
    SameLength(s, t);
    if s != [] {
      var n := |s| - 1;
      MultisetRemove(s, n);
      assert s[n] in multiset(t);
      var k :| 0 <= k < |t| && t[k] == s[n];
      MultisetRemove(t, k);
      assert multiset(s[..n] + s[n + 1..]) == multiset(s) - multiset{s[n]};
      assert multiset(t[..k] + t[k + 1..]) == multiset(t) - multiset{t[k]};
      MapPermuted(s[..n] + s[n + 1..], t[..k] + t[k + 1..], g);
      MapRemove(s, n, g);
      MapRemove(t, k, g);
    }
  }
}
