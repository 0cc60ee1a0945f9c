/**
 BigNumber arithmetic on exact decimals. Sums and products are exact; division keeps 20 decimal
 places, and `toFixed(8)` and `dp(8)` keep 8. All three round half away from zero.
 */
module Rounding {
  const E8: real := 100000000.0
  const E20: real := 100000000000000000000.0

  const HALF_UNIT_8: real := 0.5 / E8
  const HALF_UNIT_20: real := 0.5 / E20

  function Min(a: real, b: real): real {
    if a <= b then a else b
  }

  function Max(a: real, b: real): real {
    if a >= b then a else b
  }

  function Abs(x: real): real {
    if x < 0.0 then -x else x
  }

  /** To the nearest whole number, halves away from zero. */
  function Nearest(x: real): int {
    if x >= 0.0 then (x + 0.5).Floor else -((-x + 0.5).Floor)
  }

  function Round8(x: real): (r: real)
    ensures Abs(r - x) <= HALF_UNIT_8
    ensures (x >= 0.0 ==> r >= 0.0) && (x <= 0.0 ==> r <= 0.0)
  {
    Nearest(x * E8) as real / E8
  }

  function Round20(x: real): (r: real)
    ensures Abs(r - x) <= HALF_UNIT_20
    ensures (x >= 0.0 ==> r >= 0.0) && (x <= 0.0 ==> r <= 0.0)
  {
    Nearest(x * E20) as real / E20
  }

  function Times(x: real, y: real): real {
    x * y
  }

  /** `dividedBy`; callers divide by prices and balances that are not zero. */
  function Div(x: real, y: real): real
    requires y != 0.0
  {
    Round20(x / y)
  }

  /** Towards zero at 8 places. */
  function Truncate8(x: real): (r: real)
    ensures x >= 0.0 ==> 0.0 <= r <= x < r + 1.0 / E8
  {
    (if x >= 0.0 then (x * E8).Floor else -((-x * E8).Floor)) as real / E8
  }

  /** `r` is `x` at a number of decimal places, `scale` units to one, with halves away from zero. */
  predicate Rounded(x: real, r: real, scale: real)
    requires scale > 0.0
  {
    && (r * scale).Floor as real == r * scale
    && Abs(r - x) <= 0.5 / scale
    && (Abs(r - x) == 0.5 / scale ==> Abs(r) > Abs(x))
  }

  lemma NearestIs(y: real)
    ensures var d := Nearest(y) as real - y; Abs(d) <= 0.5 && (Abs(d) == 0.5 ==> Abs(Nearest(y) as real) > Abs(y))
  {
  }

  lemma RoundedFrom(x: real, n: int, scale: real)
    requires scale > 0.0 && Abs(n as real - x * scale) <= 0.5
    requires Abs(n as real - x * scale) == 0.5 ==> Abs(n as real) > Abs(x * scale)
    ensures Rounded(x, n as real / scale, scale)
  {
    var r, d := n as real / scale, n as real - x * scale;
    assert r * scale == n as real;
    assert r - x == d / scale;
    assert 0.5 / scale * scale == 0.5;
    assert Abs(r - x) == Abs(d) / scale;
    if Abs(r - x) == 0.5 / scale {
      assert Abs(d) == Abs(r - x) * scale == 0.5;
      assert Abs(r) * scale == Abs(n as real) && Abs(x) * scale == Abs(x * scale);
      assert Abs(r) > Abs(x) by {
        if Abs(r) <= Abs(x) { TimesGrows(Abs(r), Abs(x), scale); }
      }
    }
  }

  /** What `toFixed(8)`, `dividedBy` and rounding down to 8 places give. */
  lemma RoundsTo8(x: real)
    ensures Rounded(x, Round8(x), 100000000.0)
  {
    NearestIs(x * E8);
    RoundedFrom(x, Nearest(x * E8), E8);
  }

  lemma DividesTo20(x: real, y: real)
    requires y != 0.0
    ensures Rounded(x / y, Div(x, y), 100000000000000000000.0)
  {
    var q := x / y;
    NearestIs(q * E20);
    RoundedFrom(q, Nearest(q * E20), E20);
  }

  lemma CutsTo8(x: real)
    requires x >= 0.0
    ensures var r := Truncate8(x);
            (r * 100000000.0).Floor as real == r * 100000000.0 && r <= x < r + 0.00000001
  {
    assert Truncate8(x) * E8 == (x * E8).Floor as real;
  }

  lemma Quotient(x: real, y: real)
    requires y != 0.0
    ensures Times(x / y, y) == x
  {
  }

  lemma Positive(x: real, u: real)
    requires x > 0.0 && u > 0.0
    ensures Times(x, u) > 0.0
  {
  }

  lemma TimesOrder(a: real, b: real, u: real)
    requires u > 0.0
    ensures a < b <==> Times(a, u) < Times(b, u)
  {
    assert Times(b, u) - Times(a, u) == Times(b - a, u);
    if a < b {
      Positive(b - a, u);
    } else if b < a {
      assert Times(a, u) - Times(b, u) == Times(a - b, u);
      Positive(a - b, u);
    }
  }

  lemma TimesGrows(a: real, b: real, u: real)
    requires a <= b && u >= 0.0
    ensures Times(a, u) <= Times(b, u)
  {
    if u > 0.0 {
      TimesOrder(b, a, u);
    }
  }

  /** An error in a quantity is scaled by the price it is multiplied with. */
  lemma Rescale(x: real, r: real, p: real, h: real)
    requires p >= 0.0 && Abs(r - x) <= h
    ensures Abs(Times(r, p) - Times(x, p)) <= Times(p, h)
  {
    var d := r - x;
    assert Times(r, p) - Times(x, p) == Times(d, p);
    assert Times(h - d, p) >= 0.0 && Times(h + d, p) >= 0.0;
    assert Times(h - d, p) == Times(p, h) - Times(d, p);
    assert Times(h + d, p) == Times(p, h) + Times(d, p);
  }
}
