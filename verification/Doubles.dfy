/**
 `toNumber`: the nearest IEEE 754 double of a decimal, ties to the even significand. Within a binade the
 doubles stand on an even grid; from 2^52 up they are all integers.
 */
module Doubles {
  import opened Rounding

  const BITS: nat := 52
  const MAX_EXPONENT: int := 1023
  const MIN_EXPONENT: int := -1022

  // 2^53, a significand too large for its binade.
  const OVERFULL: nat := 0x20_0000_0000_0000

  datatype Double = Finite(value: real) | Infinite

  function Pow2(n: nat): (p: nat)
    ensures p >= 1
  {
    if n == 0 then 1 else 2 * Pow2(n - 1)
  }

  function ExponentFrom(x: real, low: nat, e: nat): nat
    requires low >= 1 && x >= low as real
    decreases (x - low as real).Floor
  {
    if x < (2 * low) as real then e else ExponentFrom(x, 2 * low, e + 1)
  }

  function ExponentBelow(y: real, e: int): (r: int)
    requires e >= MIN_EXPONENT
    ensures MIN_EXPONENT <= r <= e
    decreases e - MIN_EXPONENT
  {
    if y >= 1.0 || e == MIN_EXPONENT then e else ExponentBelow(2.0 * y, e - 1)
  }

  /** The exponent of the binade, that of the smallest normal numbers for everything below them. */
  function Exponent(x: real): int
    requires x >= 0.0
  {
    if x >= 1.0 then ExponentFrom(x, 1, 0) else ExponentBelow(2.0 * x, -1)
  }

  lemma {:induction false} ExponentFits(x: real, e: nat)
    requires x >= Pow2(e) as real
    ensures var r := ExponentFrom(x, Pow2(e), e); Pow2(r) as real <= x < (2 * Pow2(r)) as real
    decreases (x - Pow2(e) as real).Floor
  {
    if x >= (2 * Pow2(e)) as real { ExponentFits(x, e + 1); }
  }

  function HalfEven(y: real): nat
    requires y >= 0.0
  {
    var f := y.Floor;
    var d := y - f as real;
    if d < 0.5 || (d == 0.5 && f % 2 == 0) then f else f + 1
  }

  /** The grid of a binade: so many doubles to one unit, or so many units to one double. */
  function Grid(x: real): (real, bool)
    requires x >= 0.0
  {
    var e := Exponent(x);
    if e < BITS then (Pow2(BITS - e) as real, true) else (Pow2(e - BITS) as real, false)
  }

  function Spacing(x: real): (s: real)
    requires x >= 0.0
    ensures s > 0.0
  {
    var (g, fine) := Grid(x);
    if fine then Over(1.0, g) else g
  }

  function Over(x: real, y: real): (r: real)
    requires y > 0.0
    ensures x > 0.0 ==> r > 0.0
    ensures x >= 0.0 ==> r >= 0.0
  {
    x / y
  }

  function Significand(x: real): nat
    requires x >= 0.0
  {
    HalfEven(Over(x, Spacing(x)))
  }

  function ToNumber(q: real): Double {
    var x := Abs(q);
    var n := Significand(x);
    if Exponent(x) > MAX_EXPONENT || (Exponent(x) == MAX_EXPONENT && n >= OVERFULL) then Infinite
    else
      var v := Times(n as real, Spacing(x));
      Finite(if q < 0.0 then -v else v)
  }

  predicate IsInteger(x: real) {
    x.Floor as real == x
  }

  /** `Number.isInteger(q.toNumber())` */
  predicate IsWhole(q: real) {
    ToNumber(q).Finite? && IsInteger(ToNumber(q).value)
  }

  // ---------- Which numbers become integers ----------

  lemma HalfEvenNear(y: real, k: int)
    requires y >= 0.0 && k % 2 == 0 && Abs(y - k as real) <= 0.5
    ensures HalfEven(y) == k
  {
  }

  lemma HalfEvenIsNear(y: real)
    requires y >= 0.0
    ensures Abs(y - HalfEven(y) as real) <= 0.5
  {
  }

  predicate Near(x: real, i: int)
    requires x >= 0.0
  {
    Abs(x - i as real) <= Spacing(x) / 2.0
  }

  /** Some integer lies within half the spacing of the doubles around a number. */
  ghost predicate NearInteger(x: real)
    requires x >= 0.0
  {
    exists i: int :: Near(x, i)
  }

  lemma IntegerMeans(x: real, i: int)
    requires x == i as real
    ensures IsInteger(x)
  {
  }

  lemma ScaledBy(x: real, g: real)
    requires g > 0.0
    ensures Over(x, Over(1.0, g)) == Times(x, g)
    ensures Over(1.0, g) / 2.0 == 0.5 / g
  {
    var s := Over(1.0, g);
    assert Times(s, g) == 1.0;
    assert Times(Times(x, g), s) == x;
  }

  lemma NearScaled(x: real, i: int, g: nat)
    requires g > 0
    ensures Abs(x - i as real) <= 0.5 / g as real <==> Abs(Times(x, g as real) - (i * g) as real) <= 0.5
  {
    var h, d := g as real, x - i as real;
    assert Times(x, h) - (i * g) as real == Times(d, h);
    assert Times(0.5 / h, h) == 0.5;
    TimesOrder(0.5 / h, d, h);
    TimesOrder(d, -(0.5 / h), h);
    assert Times(-(0.5 / h), h) == -0.5;
  }

  lemma FineToInteger(x: real, g: nat) returns (i: int)
    requires x >= 0.0 && g > 0
    requires IsInteger(Times(HalfEven(TimesNat(x, g)) as real, Over(1.0, g as real)))
    ensures Abs(x - i as real) <= 0.5 / g as real
  {
    var n := HalfEven(TimesNat(x, g));
    var v := Times(n as real, Over(1.0, g as real));
    i := v.Floor;
    OverTimes(n as real, g as real);
    IntegerProduct(i, g);
    HalfEvenIsNear(TimesNat(x, g));
    NearScaled(x, i, g);
  }

  lemma OverTimes(n: real, g: real)
    requires g > 0.0
    ensures Times(Times(n, Over(1.0, g)), g) == n
  {
    assert Times(Over(1.0, g), g) == 1.0;
  }

  lemma IntegerProduct(i: int, g: nat)
    ensures Times(i as real, g as real) == (i * g) as real
  {
  }

  lemma IntegerToFine(x: real, g: nat, i: int)
    requires x >= 0.0 && g > 0 && g % 2 == 0 && Abs(x - i as real) <= 0.5 / g as real
    ensures IsInteger(Times(HalfEven(TimesNat(x, g)) as real, Over(1.0, g as real)))
  {
    var n := HalfEven(TimesNat(x, g));
    NearScaled(x, i, g);
    EvenProduct(i, g);
    HalfEvenNear(TimesNat(x, g), i * g);
    IntegerProduct(i, g);
    OverTimes(n as real, g as real);
    SameQuotient(Times(n as real, Over(1.0, g as real)), i as real, g as real);
    IntegerMeans(Times(n as real, Over(1.0, g as real)), i);
  }

  function TimesNat(x: real, g: nat): (r: real)
    requires x >= 0.0
    ensures r >= 0.0 && r == Times(x, g as real)
  {
    TimesGrows(0.0, x, g as real);
    Times(x, g as real)
  }

  lemma EvenProduct(i: int, g: nat)
    requires g % 2 == 0
    ensures (i * g) % 2 == 0
  {
    assert i * g == 2 * (i * (g / 2));
  }

  lemma SameQuotient(a: real, b: real, g: real)
    requires g > 0.0 && Times(a, g) == Times(b, g)
    ensures a == b
  {
    TimesOrder(a, b, g);
    TimesOrder(b, a, g);
  }

  lemma CoarseGrid(x: real, g: nat)
    requires x >= 0.0 && g >= 1
    ensures IsInteger(Times(HalfEven(Over(x, g as real)) as real, g as real))
    ensures Abs(x - (x + 0.5).Floor as real) <= g as real / 2.0
  {
    var n := HalfEven(Over(x, g as real));
    assert Times(n as real, g as real) == (n * g) as real;
    IntegerMeans(Times(n as real, g as real), n * g);
    assert Abs(x - (x + 0.5).Floor as real) <= 0.5;
  }

  lemma EvenPower(n: nat)
    requires n >= 1
    ensures Pow2(n) % 2 == 0
  {
  }

  lemma FineWhole(x: real)
    requires x >= 0.0 && Exponent(x) < BITS
    ensures IsInteger(Times(Significand(x) as real, Spacing(x))) <==> NearInteger(x)
  {
    var g := Pow2(BITS - Exponent(x));
    EvenPower(BITS - Exponent(x));
    ScaledBy(x, g as real);
    assert Spacing(x) == Over(1.0, g as real);
    assert Significand(x) == HalfEven(TimesNat(x, g));
    if IsInteger(Times(Significand(x) as real, Spacing(x))) {
      var i := FineToInteger(x, g);
      assert Near(x, i);
    }
    if i: int :| Near(x, i) {
      IntegerToFine(x, g, i);
    }
  }

  lemma CoarseWhole(x: real)
    requires x >= 0.0 && Exponent(x) >= BITS
    ensures IsInteger(Times(Significand(x) as real, Spacing(x))) && NearInteger(x)
  {
    var g := Pow2(Exponent(x) - BITS);
    CoarseGrid(x, g);
    assert Near(x, (x + 0.5).Floor);
  }

  /**
   A number of ordinary size passes the integer test exactly when some integer lies within half the spacing of
   the doubles around it.
   */
  lemma WholeExactly(x: real)
    requires x >= 0.0 && ToNumber(x).Finite?
    ensures IsWhole(x) <==> NearInteger(x)
  {
    assert Abs(x) == x;
    if Exponent(x) < BITS { FineWhole(x); } else { CoarseWhole(x); }
  }

  lemma {:induction false} PowersGrow(a: nat, b: nat)
    requires a <= b
    ensures Pow2(a) <= Pow2(b)
    decreases b - a
  {
    if a < b { PowersGrow(a, b - 1); }
  }

  lemma SmallSpacing(x: real)
    requires 0.0 <= x < 1.0
    ensures ToNumber(x).Finite? && Spacing(x) <= 0.0625
  {
    assert Abs(x) == x;
    PowersGrow(4, BITS - Exponent(x));
    assert Pow2(4) == 16;
    OverGrows(16.0, Pow2(BITS - Exponent(x)) as real);
  }

  lemma OverGrows(a: real, b: real)
    requires 0.0 < a <= b
    ensures Over(1.0, b) <= Over(1.0, a)
  {
    assert Times(Over(1.0, a), a) == 1.0 && Times(Over(1.0, b), b) == 1.0;
    if Over(1.0, b) > Over(1.0, a) {
      TimesOrder(Over(1.0, a), Over(1.0, b), a);
      TimesGrows(a, b, Over(1.0, b));
      Commute(a, Over(1.0, b));
      Commute(b, Over(1.0, b));
    }
  }

  lemma Commute(a: real, b: real)
    ensures Times(a, b) == Times(b, a)
  {
  }

  lemma Doubled(a: nat, b: nat)
    ensures 2 * (a * b) == (2 * a) * b
  {
  }

  lemma {:induction false} PowersAdd(a: nat, b: nat)
    ensures Pow2(a + b) == Pow2(a) * Pow2(b)
    decreases a
  {
    if a > 0 {
      PowersAdd(a - 1, b);
      Doubled(Pow2(a - 1), Pow2(b));
    }
  }

  lemma PowersOfInterest()
    ensures Pow2(52) == 0x10_0000_0000_0000 && Pow2(53) == OVERFULL
  {
    assert Pow2(13) == 8192;
    PowersAdd(13, 13);
    PowersAdd(26, 26);
    PowersAdd(1, 52);
  }

  /** From one half up the doubles are at least 1e-16 apart. */
  lemma WideSpacing(x: real)
    requires x >= 0.5
    ensures Spacing(x) >= 0.0000000000000001
  {
    var e := Exponent(x);
    PowersOfInterest();
    if e < BITS {
      PowersGrow(BITS - e, 53);
      OverGrows(Pow2(BITS - e) as real, Pow2(53) as real);
      assert Over(1.0, OVERFULL as real) >= 0.0000000000000001;
    }
  }

  /** A number just below an integer passes the test: nothing there reaches the text. */
  lemma WholeBelowInteger(x: real, k: int)
    requires x >= 0.0 && 0.0 < k as real - x <= 0.00000000000000005 && ToNumber(x).Finite?
    ensures IsWhole(x)
  {
    WideSpacing(x);
    assert Near(x, k);
    WholeExactly(x);
  }

  lemma NotWhole(x: real)
    requires 0.0625 < x < 0.9
    ensures !IsWhole(x)
  {
    SmallSpacing(x);
    WholeExactly(x);
    forall i: int ensures !Near(x, i) {
    }
  }

  lemma WholeNearTwo(x: real)
    requires 1.0 <= x < 2.0 && 2.0 - x <= 0.0000000000000001
    ensures IsWhole(x)
  {
    PowersOfInterest();
    assert Exponent(x) == 0 && Abs(x) == x;
    assert Spacing(x) == Over(1.0, Pow2(52) as real);
    assert Over(1.0, 0x10_0000_0000_0000 as real) >= 0.0000000000000002;
    assert Near(x, 2);
    WholeExactly(x);
  }
}
