/**
 Rounding a quantity down to an exchange's step by printing it with 16 decimals, cutting the text after
 as many decimals as the step has, and reading it back. Compared with the arithmetic floor.
 */
module StepRounding {
  import opened Options
  import opened Sequences
  import opened CodeUnits
  import opened BigNumbers
  import opened Rounding
  import opened Doubles

  const PLACES: nat := 16
  const E16: nat := 1_0000_0000_0000_0000
  const HALF_UNIT_16: real := 0.5 / E16 as real

  // ---------- The text ----------

  /** A number of 10^-k units written with k decimals. */
  function DecimalText(n: nat, k: nat): Text
    decreases k
  {
    if k == 0 then NatText(n) + [DOT] else DecimalText(n / 10, k - 1) + [ZERO + n % 10]
  }

  /** The digits `toFixed(16)` gives, rounding half away from zero: the number of 1e-16 units. */
  function Units(q: real): nat {
    Nearest(Times(Abs(q), E16 as real))
  }

  function FixedText(q: real): Text {
    Minus(q < 0.0) + DecimalText(Units(q), PLACES)
  }

  function IndexOf(s: Text, c: Unit): int {
    if s == [] then -1
    else if s[0] == c then 0
    else
      var i := IndexOf(s[1..], c);
      if i < 0 then -1 else i + 1
  }

  function Slice(s: Text, n: nat): Text {
    if n <= |s| then s[..n] else s
  }

  function Value(neg: bool, digits: Text, decimals: nat): real
    requires AllDigits(digits)
  {
    var v := DigitsValue(digits) as real / Pow10(decimals) as real;
    if neg then -v else v
  }

  /** The decimal a text without exponent stands for; `BigNumbers.ConstructValue` says it is kept exactly. */
  function Parsed(text: Text): real {
    ScanSplits(text);
    var nt := Scan(text).0;
    Value(nt.neg, nt.whole + FracDigits(nt), |FracDigits(nt)|)
  }

  function Decimals(step: Text): nat {
    var i := IndexOf(step, ONE) - 1;
    if i > 0 then i else 0
  }

  /** What is read back after cutting a text at `decimals` characters behind its point. */
  function ReadCut(text: Text, decimals: nat): real {
    Parsed(Slice(text, IndexOf(text, DOT) + decimals + 1))
  }

  function RoundStep(q: real, step: Text): real {
    if IsWhole(q) then q else ReadCut(FixedText(q), Decimals(step))
  }

  // ---------- Digits ----------

  lemma OneMoreDigit(w: Text, f: Text, n: nat)
    requires AllDigits(w) && AllDigits(f) && DigitsValue(w + f) == n / 10
    ensures var g := f + [ZERO + n % 10]; AllDigits(g) && DigitsValue(w + g) == n
  {
    var digit: Text := [ZERO + n % 10];
    Associates(w, f, digit);
    assert ((w + f) + digit)[..|w + f|] == w + f;
  }

  /** The digits before and after the point stand for the number of units. */
  lemma {:induction false} DecimalParts(n: nat, k: nat) returns (w: Text, f: Text)
    ensures DecimalText(n, k) == w + [DOT] + f
    ensures AllDigits(w) && AllDigits(f) && |f| == k && DigitsValue(w + f) == n
    decreases k
  {
    if k == 0 {
      NatTextValue(n);
      w, f := NatText(n), [];
      assert w + f == w;
    } else {
      var w', f' := DecimalParts(n / 10, k - 1);
      OneMoreDigit(w', f', n);
      w, f := w', f' + [ZERO + n % 10];
      Associates(w + [DOT], f', [ZERO + n % 10]);
    }
  }

  /** Cutting digits off the end divides. */
  lemma {:induction false} CutDigits(s: Text, k: nat)
    requires AllDigits(s) && k <= |s|
    ensures DigitsValue(s[..|s| - k]) == DigitsValue(s) / Pow10(k)
  {
    if k == 0 {
      assert s[..|s|] == s;
    } else {
      var t := s[..|s| - 1];
      CutDigits(t, k - 1);
      assert t[..|t| - (k - 1)] == s[..|s| - k];
      assert DigitsValue(s) / 10 == DigitsValue(t);
      DivideTwice(DigitsValue(s), Pow10(k - 1));
    }
  }

  lemma DivideTwice(n: nat, p: nat)
    requires p >= 1
    ensures n / (10 * p) == (n / 10) / p
  {
    var a, b := n / 10, n % 10;
    var c, d := a / p, a % p;
    assert n == 10 * (p * c + d) + b;
    assert n == (10 * p) * c + (10 * d + b) by { assert 10 * (p * c) == (10 * p) * c; }
    Euclid(n, 10 * p, c, 10 * d + b);
  }

  lemma Grows(p: int, k: int)
    requires p > 0
    ensures (k >= 1 ==> p * k >= p) && (k <= -1 ==> p * k <= -p)
  {
  }

  lemma Euclid(n: int, p: int, c: int, r: int)
    requires p > 0 && n == p * c + r && 0 <= r < p
    ensures n / p == c
  {
    assert p * (n / p - c) == p * (n / p) - p * c;
    Grows(p, n / p - c);
  }

  lemma PowSplit(d: nat)
    requires d <= PLACES
    ensures Pow10(d) * Pow10(PLACES - d) == E16
  {
    PowAdd(d, PLACES - d);
    PowSixteen();
  }

  lemma Regroup(a: int, b: int, c: int)
    ensures a * (b * c) == (a * b) * c
  {
  }

  lemma {:induction false} PowAdd(a: nat, b: nat)
    ensures Pow10(a + b) == Pow10(a) * Pow10(b)
    decreases a
  {
    if a > 0 {
      PowAdd(a - 1, b);
      Regroup(10, Pow10(a - 1), Pow10(b));
    }
  }

  lemma PowSixteen()
    ensures Pow10(PLACES) == E16
  {
    assert Pow10(4) == 10000;
    PowAdd(4, 4);
    PowAdd(8, 8);
  }

  // ---------- The cut text ----------

  function Minus(neg: bool): Text {
    if neg then [MINUS] else []
  }

  lemma {:induction false} NoDot(s: Text, rest: Text)
    requires AllDigits(s)
    ensures IndexOf(s + [DOT] + rest, DOT) == |s|
  {
    var all := s + [DOT] + rest;
    if s != [] {
      assert all[1..] == s[1..] + [DOT] + rest;
      NoDot(s[1..], rest);
    }
  }

  lemma DotAt(neg: bool, w: Text, f: Text)
    requires AllDigits(w)
    ensures IndexOf(Minus(neg) + w + [DOT] + f, DOT) == |Minus(neg)| + |w|
  {
    NoDot(w, f);
    if neg {
      assert (Minus(neg) + w + [DOT] + f)[1..] == w + [DOT] + f;
    } else {
      assert Minus(neg) + w + [DOT] + f == w + [DOT] + f;
    }
  }

  lemma CutAfter(sign: Text, w: Text, f: Text, n: nat)
    ensures Slice(sign + w + [DOT] + f, |sign| + |w| + n + 1) == sign + (w + ([DOT] + Slice(f, n)))
  {
  }

  /** The characters before the cut, as a number text. */
  lemma CutText(neg: bool, w: Text, f: Text, n: nat)
    requires AllDigits(w)
    ensures var text := Minus(neg) + w + [DOT] + f;
            Slice(text, IndexOf(text, DOT) + n + 1) == NumberTo(NumberText(neg, w, Some(Slice(f, n)), None), [])
  {
    var g := Slice(f, n);
    DotAt(neg, w, f);
    CutAfter(Minus(neg), w, f, n);
    assert g + [] == g;
    assert Minus(neg) + (w + ([DOT] + g)) == SignTo(neg, w + ([DOT] + g));
  }

  lemma ParsedWritten(text: Text, nt: NumberText)
    requires WellScanned(nt) && nt.frac.Some? && nt.exp.None? && text == NumberTo(nt, [])
    ensures AllDigits(nt.whole + nt.frac.value)
    ensures Parsed(text) == Value(nt.neg, nt.whole + nt.frac.value, |nt.frac.value|)
  {
    ScanWritten(nt, []);
  }

  lemma ReadsNumber(text: Text, n: nat, nt: NumberText)
    requires WellScanned(nt) && nt.frac.Some? && nt.exp.None?
    requires Slice(text, IndexOf(text, DOT) + n + 1) == NumberTo(nt, [])
    ensures AllDigits(nt.whole + nt.frac.value)
    ensures ReadCut(text, n) == Value(nt.neg, nt.whole + nt.frac.value, |nt.frac.value|)
  {
    ParsedWritten(Slice(text, IndexOf(text, DOT) + n + 1), nt);
  }

  /** What is parsed back: the digits up to the cut, as a whole number of the last decimal kept. */
  lemma CutParsed(neg: bool, w: Text, f: Text, n: nat)
    requires AllDigits(w) && AllDigits(f)
    ensures AllDigits(w + Slice(f, n))
    ensures ReadCut(Minus(neg) + w + [DOT] + f, n) == Value(neg, w + Slice(f, n), |Slice(f, n)|)
  {
    CutText(neg, w, f, n);
    ReadsNumber(Minus(neg) + w + [DOT] + f, n, NumberText(neg, w, Some(Slice(f, n)), None));
  }

  function Signed(neg: bool, v: real): real {
    if neg then -v else v
  }

  /** How many decimals are kept: those of the step, but never more than are printed. */
  function Cut(step: Text): (d: nat)
    ensures d <= PLACES
  {
    if Decimals(step) <= PLACES then Decimals(step) else PLACES
  }

  function KeptUnits(n: nat, d: nat): real
    requires d <= PLACES
  {
    (n / Pow10(PLACES - d)) as real / Pow10(d) as real
  }

  lemma CutValue(neg: bool, w: Text, f: Text, n: nat, cut: nat)
    requires AllDigits(w) && AllDigits(f) && |f| == PLACES && DigitsValue(w + f) == n
    ensures AllDigits(w + Slice(f, cut))
    ensures Value(neg, w + Slice(f, cut), |Slice(f, cut)|)
        == Signed(neg, KeptUnits(n, if cut <= PLACES then cut else PLACES))
  {
    var k := |f| - |Slice(f, cut)|;
    CutDigits(w + f, k);
    assert (w + f)[..|w + f| - k] == w + Slice(f, cut);
  }

  lemma SignBefore(sign: Text, w: Text, f: Text)
    ensures sign + (w + [DOT] + f) == sign + w + [DOT] + f
  {
  }

  lemma CutRead(neg: bool, w: Text, f: Text, n: nat, step: Text)
    requires AllDigits(w) && AllDigits(f) && |f| == PLACES && DigitsValue(w + f) == n
    ensures ReadCut(Minus(neg) + w + [DOT] + f, Decimals(step)) == Signed(neg, KeptUnits(n, Cut(step)))
  {
    CutParsed(neg, w, f, Decimals(step));
    CutValue(neg, w, f, n, Decimals(step));
  }

  lemma UnitsCut(neg: bool, n: nat, step: Text)
    ensures ReadCut(Minus(neg) + DecimalText(n, PLACES), Decimals(step)) == Signed(neg, KeptUnits(n, Cut(step)))
  {
    var w, f := DecimalParts(n, PLACES);
    SignBefore(Minus(neg), w, f);
    CutRead(neg, w, f, n, step);
  }

  /** The result in 16-decimal units: the printed units, with the digits behind the step's dropped. */
  lemma RoundedUnits(q: real, step: Text)
    requires !IsWhole(q)
    ensures RoundStep(q, step) == Signed(q < 0.0, KeptUnits(Units(q), Cut(step)))
  {
    UnitsCut(q < 0.0, Units(q), step);
  }

  // ---------- Against the arithmetic floor ----------

  /** A power of ten up to 1 as exchanges write it: its first digit 1 stands at decimal `d`. */
  ghost predicate StepText(step: Text, d: nat) {
    var at := if d == 0 then 0 else d + 1;
    |step| > at && step[at] == 0x31 && forall i :: 0 <= i < at ==> step[i] != 0x31
  }

  lemma {:induction false} FirstAt(s: Text, c: Unit, at: nat)
    requires |s| > at && s[at] == c && forall i :: 0 <= i < at ==> s[i] != c
    ensures IndexOf(s, c) == at
  {
    if at > 0 { FirstAt(s[1..], c, at - 1); }
  }

  function Multiple(k: int, d: nat): real {
    k as real / Pow10(d) as real
  }

  /** How many steps of 10^-d fit in a quantity: `Multiple(StepsIn(q, d), d)` is the arithmetic floor. */
  function StepsIn(q: real, d: nat): int {
    Times(q, Pow10(d) as real).Floor
  }

  lemma IntTimes(a: int, b: int)
    ensures Times(a as real, b as real) == (a * b) as real
  {
  }

  lemma MultipleTimes(k: int, d: nat)
    ensures Times(Multiple(k, d), Pow10(d) as real) == k as real
  {
  }

  lemma TimesTwice(x: real, a: real, b: real, c: real)
    requires Times(a, b) == c
    ensures Times(Times(x, a), b) == Times(x, c)
  {
  }

  /** Steps counted in 16-decimal units. */
  lemma ScaleUp(q: real, d: nat)
    requires d <= PLACES
    ensures Times(Times(q, Pow10(d) as real), Pow10(PLACES - d) as real) == Times(q, E16 as real)
  {
    PowSplit(d);
    IntTimes(Pow10(d), Pow10(PLACES - d));
    TimesTwice(q, Pow10(d) as real, Pow10(PLACES - d) as real, E16 as real);
  }

  lemma MultipleUnits(k: int, d: nat)
    requires d <= PLACES
    ensures Times(Multiple(k, d), E16 as real) == (k * Pow10(PLACES - d)) as real
  {
    ScaleUp(Multiple(k, d), d);
    MultipleTimes(k, d);
    IntTimes(k, Pow10(PLACES - d));
  }

  lemma BelowMultiple(q: real, k: int, d: nat)
    ensures q < Multiple(k, d) <==> Times(q, Pow10(d) as real) < k as real
  {
    TimesOrder(q, Multiple(k, d), Pow10(d) as real);
    MultipleTimes(k, d);
  }

  /** The floor, and the multiple after it. */
  lemma StepsAround(q: real, d: nat)
    ensures Multiple(StepsIn(q, d), d) <= q < Multiple(StepsIn(q, d) + 1, d)
  {
    BelowMultiple(q, StepsIn(q, d), d);
    BelowMultiple(q, StepsIn(q, d) + 1, d);
  }

  lemma HalfUnit(a: real, b: real)
    ensures b - a > HALF_UNIT_16 <==> Times(a, E16 as real) + 0.5 < Times(b, E16 as real)
  {
  }

  /** Printed units, with `p` units to a step: rounding the last unit up can reach the next step. */
  lemma FloorOfUnits(x: real, p: nat, n: nat, m: int)
    requires p >= 1 && n == (x + 0.5).Floor
    requires (m * p) as real <= x < ((m + 1) * p) as real
    ensures n / p == if x + 0.5 < ((m + 1) * p) as real then m else m + 1
  {
    assert (m + 1) * p == m * p + p;
    assert m * p <= n <= m * p + p;
    if n < m * p + p {
      Euclid(n, p, m, n - m * p);
    } else {
      Euclid(n, p, m + 1, 0);
    }
  }

  /** Where a quantity lies between two multiples, in 16-decimal units. */
  lemma UnitsAround(q: real, d: nat)
    requires d <= PLACES
    ensures var x, m, p := Times(q, E16 as real), StepsIn(q, d), Pow10(PLACES - d);
            && (m * p) as real <= x < ((m + 1) * p) as real
            && (Multiple(m + 1, d) - q > HALF_UNIT_16 <==> x + 0.5 < ((m + 1) * p) as real)
  {
    var m := StepsIn(q, d);
    StepsAround(q, d);
    MultipleUnits(m, d);
    MultipleUnits(m + 1, d);
    TimesOrder(q, Multiple(m, d), E16 as real);
    TimesOrder(q, Multiple(m + 1, d), E16 as real);
    HalfUnit(q, Multiple(m + 1, d));
  }

  lemma UnitsRounded(q: real)
    requires q >= 0.0
    ensures Times(q, E16 as real) >= 0.0 && Units(q) == (Times(q, E16 as real) + 0.5).Floor
  {
    TimesGrows(0.0, q, E16 as real);
    assert Abs(q) == q;
  }

  lemma UnitsFloor(q: real, d: nat)
    requires q >= 0.0 && d <= PLACES
    ensures var m := StepsIn(q, d);
            KeptUnits(Units(q), d)
                == if Multiple(m + 1, d) - q > HALF_UNIT_16 then Multiple(m, d) else Multiple(m + 1, d)
  {
    UnitsAround(q, d);
    UnitsRounded(q);
    FloorOfUnits(Times(q, E16 as real), Pow10(PLACES - d), Units(q), StepsIn(q, d));
  }

  lemma ExactFloor(q: real, step: Text, d: nat)
    requires q >= 0.0 && d <= PLACES && StepText(step, d) && !IsWhole(q)
    ensures var m := StepsIn(q, d);
            RoundStep(q, step) == if Multiple(m + 1, d) - q > HALF_UNIT_16 then Multiple(m, d) else Multiple(m + 1, d)
  {
    FirstAt(step, ONE, if d == 0 then 0 else d + 1);
    assert Cut(step) == d;
    RoundedUnits(q, step);
    UnitsFloor(q, d);
  }

  /**
   For every quantity that is not negative and every power-of-ten step from 1 to 1e-16. A quantity whose
   double is an integer comes back as it is. Any other gives the largest multiple of the step not above it,
   or, within half a 1e-16 unit below the next multiple, that multiple. So the result is the floor exactly
   if the quantity is a multiple already, or is clear of both.
   */
  lemma RoundsDownExactly(q: real, step: Text, d: nat)
    requires q >= 0.0 && d <= PLACES && StepText(step, d)
    ensures var m, r := StepsIn(q, d), RoundStep(q, step);
            && Multiple(m, d) <= q < Multiple(m + 1, d)
            && (IsWhole(q) ==> r == q)
            && (!IsWhole(q) ==>
                  r == if Multiple(m + 1, d) - q > HALF_UNIT_16 then Multiple(m, d) else Multiple(m + 1, d))
            && (r == Multiple(m, d) <==>
                  if IsWhole(q) then q == Multiple(m, d) else Multiple(m + 1, d) - q > HALF_UNIT_16)
  {
    StepsAround(q, d);
    if !IsWhole(q) { ExactFloor(q, step, d); }
  }

  lemma IntegersApart(x: real, n: int)
    requires IsInteger(x) && x < n as real
    ensures x + 0.5 < n as real
  {
  }

  /** Quantities the text shows in full never come back larger; they are cut unless their double is an integer. */
  lemma SixteenDecimalsRoundDown(q: real, step: Text, d: nat)
    requires q >= 0.0 && d <= PLACES && StepText(step, d) && IsInteger(Times(q, E16 as real))
    ensures RoundStep(q, step) == if IsWhole(q) then q else Multiple(StepsIn(q, d), d)
    ensures RoundStep(q, step) <= q
  {
    var next := Multiple(StepsIn(q, d) + 1, d);
    RoundsDownExactly(q, step, d);
    assert next - q > HALF_UNIT_16 by {
      MultipleUnits(StepsIn(q, d) + 1, d);
      TimesOrder(q, next, E16 as real);
      IntegersApart(Times(q, E16 as real), (StepsIn(q, d) + 1) * Pow10(PLACES - d));
      HalfUnit(q, next);
    }
  }

  lemma HalfUnitIs()
    ensures HALF_UNIT_16 == 0.00000000000000005
  {
  }

  /** Rounding never reaches up to an integer: what is so near below one is handed back by the test before it. */
  lemma NeverUpToAnInteger(q: real, step: Text, d: nat, i: int)
    requires q >= 0.0 && d <= PLACES && StepText(step, d) && ToNumber(q).Finite?
    requires Multiple(StepsIn(q, d) + 1, d) == i as real
    ensures RoundStep(q, step) <= q
  {
    StepsAround(q, d);
    HalfUnitIs();
    if i as real - q <= HALF_UNIT_16 { WholeBelowInteger(q, i); }
    if !IsWhole(q) { ExactFloor(q, step, d); }
  }

  lemma UnitStep(k: int)
    ensures Multiple(k, 0) == k as real
  {
    assert Pow10(0) == 1;
  }

  /** With a step of 1 nothing of ordinary size is ever rounded up. */
  lemma WholeStepsRoundDown(q: real, step: Text)
    requires q >= 0.0 && StepText(step, 0) && ToNumber(q).Finite?
    ensures RoundStep(q, step) <= q
  {
    UnitStep(StepsIn(q, 0) + 1);
    NeverUpToAnInteger(q, step, 0, StepsIn(q, 0) + 1);
  }

  lemma TenthSteps(q: real, k: int)
    requires (k - 1) as real / 10.0 <= q < k as real / 10.0
    ensures StepsIn(q, 1) + 1 == k && Multiple(k, 1) == k as real / 10.0
  {
    assert Pow10(1) == 10;
  }

  /** A holding of a tenth less 1e-20, with a step of 0.1, becomes a tenth: more than is held. */
  lemma RoundsUp(held: real, step: Text)
    requires held == 0.09999999999999999999 && StepText(step, 1)
    ensures RoundStep(held, step) == 0.1 > held
  {
    NotWhole(held);
    TenthSteps(held, 1);
    RoundsDownExactly(held, step, 1);
  }

  /** 1.9999999999999999 has the double 2, and comes back as it is even with a step of 1. */
  lemma ComesBackUncut(held: real, step: Text)
    requires held == 1.9999999999999999
    ensures RoundStep(held, step) == held
  {
    WholeNearTwo(held);
  }
}
