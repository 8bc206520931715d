/** Counting in steps of an interval. */
module Multiples {

  lemma ModStep(n: nat, interval: nat)
    requires interval > 0
    ensures (n + 1) % interval == 0 || (n + 1) % interval == n % interval + 1
  {
    var q, r := n / interval, n % interval;
    assert n == q * interval + r;
    if r + 1 < interval {
      assert n + 1 == q * interval + (r + 1);
      ModOf(q, r + 1, interval);
    } else {
      assert n + 1 == (q + 1) * interval;
      ModOf(q + 1, 0, interval);
    }
  }

  lemma ModOf(q: nat, r: nat, interval: nat)
    requires r < interval
    ensures (q * interval + r) % interval == r
  {
    var n := q * interval + r;
    var q', r' := n / interval, n % interval;
    assert n == q' * interval + r';
    assert (q - q') * interval == r' - r;
    MulAtLeast(q - q', interval);
  }

  lemma MulAtLeast(d: int, n: nat)
    ensures d >= 1 ==> d * n >= n
    ensures d <= -1 ==> d * n <= 0 - n
  {
    if d >= 1 {
      assert d * n == n + (d - 1) * n;
    } else if d <= -1 {
      assert d * n == (d + 1) * n - n;
    }
  }

  /** The last multiple at or below `n`: less than one interval below it, with no other in between. */
  lemma LastMultiple(n: nat, interval: nat)
    requires interval > 0
    ensures var m := n - n % interval;
      && 0 <= m <= n < m + interval && m % interval == 0
      && forall k: nat :: m < k <= n ==> k % interval != 0
  {
    var q, r := n / interval, n % interval;
    assert n == q * interval + r;
    ModOf(q, 0, interval);
    forall k: nat | q * interval < k <= n ensures k % interval != 0 {
      assert k == q * interval + (k - q * interval);
      ModOf(q, k - q * interval, interval);
    }
  }
}
