/** Number conversions the pipeline relies on: Python's `int()` of a float
    (truncation toward zero), pandas' `Series.round()` (round half to even),
    and clamping into the unit interval. */
module Numeric {

  /** `int(x)` for a finite float: drops the fraction, rounding toward zero. */
  function Trunc(x: real): (r: int)
    ensures x >= 0.0 ==> 0 <= r && r as real <= x < r as real + 1.0
    ensures x < 0.0 ==> r <= 0 && r as real - 1.0 < x <= r as real
  {
    if x >= 0.0 then x.Floor else -((-x).Floor)
  }

  /** `round(p / n)` with ties to the even neighbour, for a positive divisor. */
  function RoundDiv(p: int, n: int): int
    requires n > 0
  {
    var q, m := p / n, p % n;
    if 2 * m < n then q
    else if 2 * m > n then q + 1
    else if q % 2 == 0 then q
    else q + 1
  }

  /** The rounded quotient lies within half the divisor of the exact one,
      and on a tie it is even. */
  lemma {:induction false} RoundDivSpec(p: int, n: int)
    requires n > 0
    ensures var r := RoundDiv(p, n);
      && -n <= 2 * (n * r - p) <= n
      && (2 * (n * r - p) == n || 2 * (n * r - p) == -n ==> r % 2 == 0)
  {
    var q, m := p / n, p % n;
    assert p == n * q + m;
    assert n * (q + 1) == n * q + n;
  }

  /** The rounded quotient is the only integer within half the divisor of the
      exact quotient when the quotient is not a tie. */
  lemma {:induction false} RoundDivUnique(p: int, n: int, k: int)
    requires n > 0 && -n < 2 * (n * k - p) < n
    ensures RoundDiv(p, n) == k
  {
    RoundDivSpec(p, n);
    var r := RoundDiv(p, n);
    if r < k {
      MulStep(n, r, k);
    } else if r > k {
      MulStep(n, k, r);
    }
  }

  lemma {:induction false} MulStep(n: int, a: int, b: int)
    requires n > 0 && a < b
    ensures n * a + n <= n * b
  {
    var d := b - a;
    assert n * b == n * a + n * d;
    assert n * (d - 1) >= 0;
    assert n * d == n * (d - 1) + n;
  }

  lemma {:induction false} MulSucc(m: int, v: int)
    ensures (m + 1) * v == m * v + v
  {
  }

  /** Clamps a weight into [0, 1], as `max(0, min(1, w))`. */
  function Clamp01(w: real): (r: real)
    ensures 0.0 <= r <= 1.0
    ensures 0.0 <= w <= 1.0 ==> r == w
    ensures w < 0.0 ==> r == 0.0
    ensures w > 1.0 ==> r == 1.0
  {
    if w < 0.0 then 0.0 else if w > 1.0 then 1.0 else w
  }

  function Min(a: real, b: real): real { if a <= b then a else b }
  function Max(a: real, b: real): real { if a >= b then a else b }

  /** `max(s)` of a non-empty list. */
  function SeqMax(s: seq<real>): (m: real)
    requires |s| > 0
    ensures m in s && forall i :: 0 <= i < |s| ==> s[i] <= m
  {
    if |s| == 1 then s[0]
    else
      var rest := SeqMax(s[1..]);
      assert forall i :: 1 <= i < |s| ==> s[i] == s[1..][i - 1];
      if s[0] >= rest then s[0] else rest
  }

  /** `min(s)` of a non-empty list. */
  function SeqMin(s: seq<real>): (m: real)
    requires |s| > 0
    ensures m in s && forall i :: 0 <= i < |s| ==> m <= s[i]
  {
    if |s| == 1 then s[0]
    else
      var rest := SeqMin(s[1..]);
      assert forall i :: 1 <= i < |s| ==> s[i] == s[1..][i - 1];
      if s[0] <= rest then s[0] else rest
  }
}
