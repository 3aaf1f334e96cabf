/** Integer division facts and the conversion of seconds to nanoseconds. */
module Arithmetic {

  /** `int(x)` on a real: truncation toward zero. */
  function Truncate(x: real): int {
    if x >= 0.0 then x.Floor else -((-x).Floor)
  }

  /** `int(seconds * 1e9)`. */
  function Nanoseconds(seconds: real): int {
    Truncate(seconds * 1000000000.0)
  }

  /** Quotient and remainder are determined by the division equation. */
  lemma QuotientIs(n: int, k: int, q: int, r: int)
    requires k > 0 && n == q * k + r && 0 <= r < k
    ensures n / k == q && n % k == r
  {
    var d := n / k - q;
    assert d * k == r - n % k by { assert (n / k) * k + n % k == n; }
    NoMultipleInside(d, k);
  }

  lemma NoMultipleInside(d: int, k: int)
    requires k > 0 && -k < d * k < k
    ensures d == 0
  {
    MultipleOutside(d, k);
  }

  lemma MultipleOutside(d: int, k: int)
    requires k > 0
    ensures (d >= 1 ==> d * k >= k) && (d <= -1 ==> d * k <= -k)
  {
    assert d * k == k + (d - 1) * k;
    assert d * k == -k + (d + 1) * k;
  }
}
