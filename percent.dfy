/** Percentages as the client renders them with `toFixed`: the value
    100·k/n rounded to a whole percent (`toFixed(0)`) or to tenths of a percent
    (`toFixed(1)`), taken on the exact rational with halves rounded up. */
module Percent {

  /** `((k / n) * 100).toFixed(0)` for n > 0: the whole percent r nearest to
      100·k/n, a half rounding up. */
  function WholePercent(k: nat, n: nat): (r: nat)
    requires n > 0
    ensures 2 * n * r <= 200 * k + n < 2 * n * r + 2 * n
  {
    var d := 2 * n;
    var x := 200 * k + n;
    DivBounds(x, d);
    x / d
  }

  /** `((k / n) * 100).toFixed(1)` for n > 0, counted in tenths of a percent:
      the tenth r nearest to 1000·k/n, a half rounding up. */
  function TenthsPercent(k: nat, n: nat): (r: nat)
    requires n > 0
    ensures 2 * n * r <= 2000 * k + n < 2 * n * r + 2 * n
  {
    var d := 2 * n;
    var x := 2000 * k + n;
    DivBounds(x, d);
    x / d
  }

  lemma DivBounds(x: nat, d: nat)
    requires d > 0
    ensures d * (x / d) <= x < d * (x / d) + d
  {
  }

  /** A share of at most the whole is at most 100%; it shows as 0% exactly when
      it is below half a percent, and a full share shows as 100%. */
  lemma {:induction false} WholePercentRange(k: nat, n: nat)
    requires 0 < n && k <= n
    ensures WholePercent(k, n) <= 100
    ensures WholePercent(k, n) == 0 <==> 200 * k < n
    ensures k == n ==> WholePercent(k, n) == 100
  {
    var r := WholePercent(k, n);
    if r > 100 {
      MulMonotonic(2 * n, 101, r);
      assert false;
    }
    if r == 0 {
      assert 200 * k < n;
    } else {
      MulMonotonic(2 * n, 1, r);
    }
    if k == n && r < 100 {
      MulMonotonic(2 * n, r + 1, 100);
      assert false;
    }
  }

  /** The same for tenths: at most 100.0%, 0.0% exactly below a twentieth of
      a percent, and a full share is 100.0%. */
  lemma {:induction false} TenthsPercentRange(k: nat, n: nat)
    requires 0 < n && k <= n
    ensures TenthsPercent(k, n) <= 1000
    ensures TenthsPercent(k, n) == 0 <==> 2000 * k < n
    ensures k == n ==> TenthsPercent(k, n) == 1000
  {
    var r := TenthsPercent(k, n);
    if r > 1000 {
      MulMonotonic(2 * n, 1001, r);
      assert false;
    }
    if r == 0 {
      assert 2000 * k < n;
    } else {
      MulMonotonic(2 * n, 1, r);
    }
    if k == n && r < 1000 {
      MulMonotonic(2 * n, r + 1, 1000);
      assert false;
    }
  }

  lemma MulMonotonic(c: nat, a: nat, b: nat)
    requires a <= b
    ensures c * a <= c * b
  {
  }
}
