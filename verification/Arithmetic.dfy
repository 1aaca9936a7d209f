/** Integer division rounded up or down, as the least and greatest multiple that fits, and the
    size of a subset.
 */
module Arithmetic {

  lemma TimesMonotone(a: nat, b: nat, d: nat)
    requires a <= b
    ensures a * d <= b * d
  {
  }

  /** The floor is the greatest count that fits. */
  lemma FloorIsGreatest(x: nat, d: nat, n: nat)
    requires d > 0
    ensures n <= x / d <==> n * d <= x
  {
    if n <= x / d {
      TimesMonotone(n, x / d, d);
    } else {
      TimesMonotone(x / d + 1, n, d);
    }
  }

  /** The source negates around a floor division; this is the same number. */
  function CeilDiv(a: nat, b: nat): (c: nat)
    requires b > 0
  {
    (a + (b - 1)) / b
  }

  /** The ceiling is the least count that reaches. */
  lemma CeilIsLeast(a: nat, b: nat, c: nat)
    requires b > 0
    ensures CeilDiv(a, b) <= c <==> a <= c * b
  {
    var k := CeilDiv(a, b);
    assert k * b <= a + (b - 1) < k * b + b;
    if k <= c {
      TimesMonotone(k, c, b);
    } else {
      TimesMonotone(c + 1, k, b);
      assert (c + 1) * b == c * b + b;
    }
  }

  lemma Regroup(a: nat, b: nat, c: nat)
    ensures (a * b) * c == (a * c) * b
  {
  }

  lemma CancelFactor(a: nat, b: nat, d: nat)
    requires d > 0 && a * d <= b * d
    ensures a <= b
  {
    if b < a {
      TimesMonotone(b + 1, a, d);
    }
  }

  /** From `k/n <= a/b` and `a/b <= c/d`, without dividing. */
  lemma CrossMultiply(k: nat, n: nat, a: nat, b: nat, c: nat, d: nat)
    requires b > 0 && k * b <= n * a && a * d <= c * b
    ensures k * d <= n * c
  {
    TimesMonotone(k * b, n * a, d);
    Regroup(k, b, d);
    Regroup(a, n, d);
    TimesMonotone(a * d, c * b, n);
    Regroup(c, b, n);
    CancelFactor(k * d, c * n, b);
  }

  function Pow2(n: nat): (p: nat)
    ensures p >= 1
  {
    if n == 0 then 1 else 2 * Pow2(n - 1)
  }

  lemma {:induction false} Pow2Monotone(m: nat, n: nat)
    requires m <= n
    ensures Pow2(m) <= Pow2(n)
    decreases n
  {
    if m < n {
      Pow2Monotone(m, n - 1);
    }
  }

  lemma {:induction false} SubsetSize<T>(small: set<T>, large: set<T>)
    requires small <= large
    ensures |small| <= |large|
    ensures |small| == |large| ==> small == large
  {
    assert large == small + (large - small);
    if |small| == |large| {
      assert |large - small| == 0;
    }
  }
}
