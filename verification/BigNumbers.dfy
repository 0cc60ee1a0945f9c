/**
 BigNumber as the JSON code uses it: an exact decimal held as sign, significant digits and the
 exponent of the leading digit, read from and written to number text.
 */
module BigNumbers {
  import opened Options
  import opened CodeUnits

  const MAX_EXP: int := 10_000_000
  const MIN_EXP: int := -10_000_000

  // Exponents at which the text form changes to exponential notation.
  const TO_EXP_NEG: int := -7
  const TO_EXP_POS: int := 21

  /** `coeff` has no zero digit at either end; the empty coefficient is zero, which keeps its sign. */
  datatype BigNumber =
    | Finite(neg: bool, coeff: Text, e: int)
    | NonFinite

  ghost predicate Canonical(b: BigNumber) {
    b.Finite? ==>
      && AllDigits(b.coeff)
      && if b.coeff == [] then b.e == 0
         else b.coeff[0] != ZERO && b.coeff[|b.coeff| - 1] != ZERO && MIN_EXP <= b.e <= MAX_EXP
  }

  /** The parts of a number text: an optional minus, digits, fraction and exponent. */
  datatype NumberText = NumberText(neg: bool, whole: Text, frac: Option<Text>, exp: Option<Exponent>)

  datatype Exponent = Exponent(mark: Unit, sign: Option<Unit>, digits: Text)

  ghost predicate WellScanned(nt: NumberText) {
    && AllDigits(nt.whole)
    && (nt.frac.Some? ==> AllDigits(nt.frac.value))
    && (nt.exp.Some? ==>
          && (nt.exp.value.mark == 0x65 || nt.exp.value.mark == 0x45)
          && (nt.exp.value.sign.Some? ==> nt.exp.value.sign.value == 0x2B || nt.exp.value.sign.value == 0x2D)
          && AllDigits(nt.exp.value.digits))
  }

  // ---------- Writing the parts, in front of what follows ----------

  function SignTo(neg: bool, k: Text): Text {
    if neg then [0x2D] + k else k
  }

  function FracTo(frac: Option<Text>, k: Text): Text {
    if frac.Some? then [0x2E] + (frac.value + k) else k
  }

  function ExpSignTo(sign: Option<Unit>, k: Text): Text {
    if sign.Some? then [sign.value] + k else k
  }

  function ExpTo(exp: Option<Exponent>, k: Text): Text {
    if exp.None? then k
    else [exp.value.mark] + ExpSignTo(exp.value.sign, exp.value.digits + k)
  }

  function NumberTo(nt: NumberText, k: Text): Text {
    SignTo(nt.neg, nt.whole + FracTo(nt.frac, ExpTo(nt.exp, k)))
  }

  // ---------- Reading the parts, as far as they go ----------

  function ScanFrac(s: Text): (r: (Option<Text>, Text)) {
    if Peek(s) == DOT then (Some(TakeDigits(s[1..])), DropDigits(s[1..])) else (None, s)
  }

  function ScanExpSign(s: Text): (r: (Option<Unit>, Text)) {
    if Peek(s) == MINUS || Peek(s) == PLUS then (Some(s[0]), s[1..]) else (None, s)
  }

  function ScanExp(s: Text): (r: (Option<Exponent>, Text)) {
    if Peek(s) == LOWER_E || Peek(s) == UPPER_E then
      var (sign, t) := ScanExpSign(s[1..]);
      (Some(Exponent(s[0], sign, TakeDigits(t))), DropDigits(t))
    else (None, s)
  }

  function Scan(s: Text): (r: (NumberText, Text)) {
    var neg := Peek(s) == MINUS;
    var s1 := if neg then s[1..] else s;
    var (frac, s2) := ScanFrac(DropDigits(s1));
    var (exp, rest) := ScanExp(s2);
    (NumberText(neg, TakeDigits(s1), frac, exp), rest)
  }

  lemma ScanSplits(s: Text)
    ensures var (nt, rest) := Scan(s); WellScanned(nt) && s == NumberTo(nt, rest)
  {
    var s1 := if Peek(s) == MINUS then s[1..] else s;
    DigitsSplit(s1);
    var s2 := DropDigits(s1);
    var (frac, s3) := ScanFrac(s2);
    assert s2 == FracTo(frac, s3) && (frac.Some? ==> AllDigits(frac.value)) by {
      if Peek(s2) == DOT { DigitsSplit(s2[1..]); }
    }
    ScanExpSplits(s3);
  }

  lemma ScanExpSplits(s: Text)
    ensures var (exp, rest) := ScanExp(s); s == ExpTo(exp, rest) && WellScanned(NumberText(false, [], None, exp))
  {
    if Peek(s) == LOWER_E || Peek(s) == UPPER_E {
      var (sign, t) := ScanExpSign(s[1..]);
      assert s == [s[0]] + s[1..] && s[1..] == ExpSignTo(sign, t);
      DigitsSplit(t);
      assert t == TakeDigits(t) + DropDigits(t);
    }
  }

  /** `k` cannot be read as a continuation of the number. */
  ghost predicate Stops(nt: NumberText, k: Text) {
    && !IsDigit(Peek(k))
    && (nt.exp.None? ==> Peek(k) != LOWER_E && Peek(k) != UPPER_E)
    && (nt.exp.None? && nt.frac.None? ==> Peek(k) != DOT)
    && (nt.exp.Some? && nt.exp.value.sign.None? && nt.exp.value.digits == [] ==> Peek(k) != MINUS && Peek(k) != PLUS)
    && (!nt.neg && nt.whole == [] && nt.frac.None? && nt.exp.None? ==> Peek(k) != MINUS)
  }

  /** Reading stops exactly where the number was written. */
  lemma ScanWritten(nt: NumberText, k: Text)
    requires WellScanned(nt) && Stops(nt, k)
    ensures Scan(NumberTo(nt, k)) == (nt, k)
  {
    var e := ExpTo(nt.exp, k);
    var f := FracTo(nt.frac, e);
    var s1 := nt.whole + f;
    assert Peek(NumberTo(nt, k)) == MINUS <==> nt.neg by {
      if !nt.neg && nt.whole == [] { assert s1 == f; }
    }
    assert nt.neg ==> NumberTo(nt, k)[1..] == s1;
    DigitsStop(nt.whole, f);
    if nt.frac.Some? {
      assert f[1..] == nt.frac.value + e;
      DigitsStop(nt.frac.value, e);
    }
    if nt.exp.Some? {
      var x := nt.exp.value;
      var t := ExpSignTo(x.sign, x.digits + k);
      assert e[1..] == t;
      DigitsStop(x.digits, k);
      if x.sign.Some? {
        assert t[1..] == x.digits + k;
      } else {
        assert x.digits != [] ==> Peek(t) == x.digits[0];
        assert x.digits == [] ==> t == k;
      }
    }
  }

  lemma NumberPieces(nt: NumberText)
    ensures NumberTo(nt, []) == SignTo(nt.neg, []) + (nt.whole + (FracTo(nt.frac, []) + ExpTo(nt.exp, [])))
  {
    var e := ExpTo(nt.exp, []);
    FracBefore(nt.frac, e);
  }

  lemma FracBefore(frac: Option<Text>, e: Text)
    ensures FracTo(frac, e) == FracTo(frac, []) + e
  {
    if frac.Some? {
      assert frac.value + [] == frac.value;
    }
  }

  // ---------- From text to number ----------

  /** The text is one the constructor takes for a number. */
  predicate Numeric(nt: NumberText) {
    && (nt.whole != [] || (nt.frac.Some? && nt.frac.value != []))
    && (nt.exp.Some? ==> nt.exp.value.digits != [])
  }

  function FracDigits(nt: NumberText): Text {
    if nt.frac.Some? then nt.frac.value else []
  }

  function ExponentValue(nt: NumberText): int
    requires nt.exp.Some? ==> AllDigits(nt.exp.value.digits)
  {
    if nt.exp.None? then 0
    else
      var n: int := DigitsValue(nt.exp.value.digits);
      if nt.exp.value.sign == Some(MINUS) then -n else n
  }

  function LeadingZeros(s: Text): (n: nat)
    ensures n <= |s|
  {
    if s != [] && s[0] == ZERO then 1 + LeadingZeros(s[1..]) else 0
  }

  function TrimRight(s: Text): Text {
    if s != [] && s[|s| - 1] == ZERO then TrimRight(s[..|s| - 1]) else s
  }

  /** The library's constructor on the parts of a number text. */
  function Construct(nt: NumberText): BigNumber
    requires nt.exp.Some? ==> AllDigits(nt.exp.value.digits)
  {
    var all := nt.whole + FracDigits(nt);
    var lead := LeadingZeros(all);
    var coeff := TrimRight(all[lead..]);
    var e := |nt.whole| + ExponentValue(nt) - lead - 1;
    if coeff == [] then Finite(nt.neg, [], 0)
    else if e > MAX_EXP then NonFinite
    else if e < MIN_EXP then Finite(nt.neg, [], 0)
    else Finite(nt.neg, coeff, e)
  }

  /** `new BigNumber(text)` for decimal text; any other text is not a number. */
  function NewBigNumber(text: Text): BigNumber {
    ScanSplits(text);
    var (nt, rest) := Scan(text);
    if rest == [] && Numeric(nt) then Construct(nt) else NonFinite
  }

  // ---------- From number to text ----------

  function ExponentOf(e: int): Exponent {
    if e < 0 then Exponent(LOWER_E, Some(MINUS), NatText(-e)) else Exponent(LOWER_E, Some(PLUS), NatText(e))
  }

  function Exponential(coeff: Text, e: int): Text
    requires coeff != []
  {
    var significand := if |coeff| > 1 then [coeff[0], DOT] + coeff[1..] else coeff;
    significand + (if e < 0 then [LOWER_E, MINUS] + NatText(-e) else [LOWER_E, PLUS] + NatText(e))
  }

  function FixedPoint(coeff: Text, e: int): Text {
    if e < 0 then [ZERO, DOT] + Zeros(-e - 1) + coeff
    else if e + 1 > |coeff| then coeff + Zeros(e + 1 - |coeff|)
    else if e + 1 < |coeff| then coeff[..e + 1] + [DOT] + coeff[e + 1..]
    else coeff
  }

  function Body(b: BigNumber): Text
    requires b.Finite?
  {
    var digits := if b.coeff == [] then [ZERO] else b.coeff;
    if b.e <= TO_EXP_NEG || b.e >= TO_EXP_POS then Exponential(digits, b.e) else FixedPoint(digits, b.e)
  }

  /** The text `toJSON` gives a finite number. */
  function ToText(b: BigNumber): Text
    requires b.Finite?
  {
    if b.neg then [MINUS] + Body(b) else Body(b)
  }

  /**
   The same text by its parts: with an exponent up to the seventh place behind the point and from the 22nd
   before it, and otherwise as a plain decimal.
   */
  function TextParts(b: BigNumber): NumberText
    requires b.Finite?
  {
    var c := b.coeff;
    if c == [] then NumberText(b.neg, [0x30], None, None)
    else if b.e <= -7 || b.e >= 21 then
      NumberText(b.neg, [c[0]], if |c| > 1 then Some(c[1..]) else None,
                 Some(Exponent(0x65, Some(if b.e < 0 then 0x2D else 0x2B), NatText(if b.e < 0 then -b.e else b.e))))
    else if b.e < 0 then NumberText(b.neg, [0x30], Some(Zeros(-b.e - 1) + c), None)
    else if b.e + 1 < |c| then NumberText(b.neg, c[..b.e + 1], Some(c[b.e + 1..]), None)
    else NumberText(b.neg, c + Zeros(b.e + 1 - |c|), None, None)
  }

  /** A number by RFC 8259, section 6: no superfluous leading zero, and no empty digit run. */
  ghost predicate StrictNumber(nt: NumberText) {
    && WellScanned(nt)
    && nt.whole != [] && (nt.whole[0] == 0x30 ==> |nt.whole| == 1)
    && (nt.frac.Some? ==> nt.frac.value != [])
    && (nt.exp.Some? ==> nt.exp.value.digits != [])
  }

  lemma ExponentWritten(e: int, k: Text)
    ensures (if e < 0 then [LOWER_E, MINUS] + NatText(-e) else [LOWER_E, PLUS] + NatText(e)) + k
            == ExpTo(Some(ExponentOf(e)), k)
  {
    var x := ExponentOf(e);
    assert [LOWER_E, x.sign.value] + x.digits + k == [LOWER_E] + ([x.sign.value] + (x.digits + k));
  }

  lemma SignificandWritten(c: Text, x: Text, k: Text)
    requires c != []
    ensures (if |c| > 1 then [c[0], DOT] + c[1..] else c) + x + k
            == [c[0]] + FracTo(if |c| > 1 then Some(c[1..]) else None, x + k)
  {
    if |c| > 1 {
      assert [c[0], DOT] + c[1..] + x + k == [c[0]] + ([DOT] + (c[1..] + (x + k)));
    }
  }

  lemma ExponentialWritten(c: Text, e: int, k: Text)
    requires c != []
    ensures Exponential(c, e) + k
            == [c[0]] + FracTo(if |c| > 1 then Some(c[1..]) else None, ExpTo(Some(ExponentOf(e)), k))
  {
    ExponentWritten(e, k);
    SignificandWritten(c, if e < 0 then [LOWER_E, MINUS] + NatText(-e) else [LOWER_E, PLUS] + NatText(e), k);
  }

  lemma FixedPointWritten(c: Text, e: int, k: Text)
    requires c != []
    ensures e < 0 ==> FixedPoint(c, e) + k == [ZERO] + ([DOT] + ((Zeros(-e - 1) + c) + k))
    ensures 0 <= e && e + 1 < |c| ==> FixedPoint(c, e) + k == c[..e + 1] + ([DOT] + (c[e + 1..] + k))
    ensures e + 1 >= |c| ==> FixedPoint(c, e) + k == (c + Zeros(e + 1 - |c|)) + k
  {
    if e + 1 == |c| {
      assert c + Zeros(0) == c;
    }
  }

  lemma BodyWritten(b: BigNumber, k: Text)
    requires b.Finite? && Canonical(b)
    ensures var nt := TextParts(b); Body(b) + k == nt.whole + FracTo(nt.frac, ExpTo(nt.exp, k))
  {
    if b.coeff == [] {
      assert Body(b) == [ZERO];
    } else if b.e <= TO_EXP_NEG || b.e >= TO_EXP_POS {
      ExponentialWritten(b.coeff, b.e, k);
    } else {
      FixedBodyWritten(b, k);
    }
  }

  lemma FixedBodyWritten(b: BigNumber, k: Text)
    requires b.Finite? && b.coeff != [] && TO_EXP_NEG < b.e < TO_EXP_POS
    ensures var nt := TextParts(b); FixedPoint(b.coeff, b.e) + k == nt.whole + FracTo(nt.frac, ExpTo(nt.exp, k))
  {
    FixedPointWritten(b.coeff, b.e, k);
  }

  lemma TextPartsWritten(b: BigNumber, k: Text)
    requires b.Finite? && Canonical(b)
    ensures ToText(b) + k == NumberTo(TextParts(b), k)
  {
    BodyWritten(b, k);
    assert ([MINUS] + Body(b)) + k == [MINUS] + (Body(b) + k);
  }

  lemma DigitsBetween(s: Text, i: nat, j: nat)
    requires AllDigits(s) && i <= j <= |s|
    ensures AllDigits(s[i..j])
  {
    forall k | 0 <= k < j - i ensures 0x30 <= s[i..j][k] <= 0x39 {
      assert s[i..j][k] == s[i + k];
    }
  }

  lemma DigitsJoined(a: Text, b: Text)
    requires AllDigits(a) && AllDigits(b)
    ensures AllDigits(a + b)
  {
  }

  lemma TextPartsStrict(b: BigNumber)
    requires b.Finite? && Canonical(b)
    ensures StrictNumber(TextParts(b))
  {
    var c, e := b.coeff, b.e;
    NatTextValue(if e < 0 then -e else e);
    if c != [] {
      DigitsBetween(c, 1, |c|);
      if -7 < e < 0 {
        DigitsJoined(Zeros(-e - 1), c);
      } else if 0 <= e && e + 1 < |c| {
        DigitsBetween(c, 0, e + 1);
        DigitsBetween(c, e + 1, |c|);
      } else if 0 <= e < 21 {
        DigitsJoined(c, Zeros(e + 1 - |c|));
      }
    }
  }

  lemma {:induction false} LeadingZerosOf(n: nat, c: Text)
    requires c == [] || c[0] != ZERO
    ensures LeadingZeros(Zeros(n) + c) == n
  {
    if n == 0 {
      assert Zeros(0) + c == c;
    } else {
      assert (Zeros(n) + c)[1..] == Zeros(n - 1) + c;
      LeadingZerosOf(n - 1, c);
    }
  }

  lemma {:induction false} TrimRightOf(c: Text, n: nat)
    requires c == [] || c[|c| - 1] != ZERO
    ensures TrimRight(c + Zeros(n)) == c
  {
    if n == 0 {
      assert c + Zeros(0) == c;
    } else {
      assert (c + Zeros(n))[..|c| + n - 1] == c + Zeros(n - 1);
      TrimRightOf(c, n - 1);
    }
  }

  /** Zeros on either side of the significant digits do not change the number that is built. */
  lemma ConstructPadded(nt: NumberText, lead: nat, c: Text, trail: nat)
    requires nt.exp.Some? ==> AllDigits(nt.exp.value.digits)
    requires nt.whole + FracDigits(nt) == Zeros(lead) + c + Zeros(trail)
    requires c != [] && c[0] != ZERO && c[|c| - 1] != ZERO
    requires MIN_EXP <= |nt.whole| + ExponentValue(nt) - lead - 1 <= MAX_EXP
    ensures Construct(nt) == Finite(nt.neg, c, |nt.whole| + ExponentValue(nt) - lead - 1)
  {
    var all := nt.whole + FracDigits(nt);
    assert all == Zeros(lead) + (c + Zeros(trail));
    LeadingZerosOf(lead, c + Zeros(trail));
    assert all[lead..] == c + Zeros(trail);
    TrimRightOf(c, trail);
  }

  lemma ConstructZero(nt: NumberText)
    requires nt.exp.None? && nt.whole == [ZERO] && nt.frac.None?
    ensures Construct(nt) == Finite(nt.neg, [], 0)
  {
    var all := nt.whole + FracDigits(nt);
    assert all == [ZERO];
    assert LeadingZeros(all) == 1 by { assert all[1..] == []; }
    assert all[1..] == [];
  }

  lemma ExponentKept(b: BigNumber)
    requires b.Finite?
    ensures var nt := TextParts(b);
            && (nt.exp.Some? ==> AllDigits(nt.exp.value.digits))
            && ExponentValue(nt) == if nt.exp.Some? then b.e else 0
  {
    NatTextValue(if b.e < 0 then -b.e else b.e);
  }

  lemma ConstructParts(b: BigNumber)
    requires b.Finite? && Canonical(b)
    ensures WellScanned(TextParts(b)) && Construct(TextParts(b)) == b
  {
    TextPartsStrict(b);
    if b.coeff == [] {
      ConstructZero(TextParts(b));
    } else {
      ExponentKept(b);
      var lead, trail := PaddedDigits(b);
      ConstructPadded(TextParts(b), lead, b.coeff, trail);
    }
  }

  lemma NoPadding(c: Text)
    ensures Zeros(0) + c + Zeros(0) == c
  {
  }

  lemma ZerosBefore(c: Text, n: nat)
    requires n > 0
    ensures [ZERO] + (Zeros(n - 1) + c) == Zeros(n) + c + Zeros(0)
  {
  }

  lemma ZerosAfter(c: Text, n: nat)
    ensures (c + Zeros(n)) + [] == Zeros(0) + c + Zeros(n)
  {
  }

  lemma Halves(c: Text, n: nat)
    requires n <= |c|
    ensures c[..n] + c[n..] == c && (n == |c| ==> c[..n] + [] == c)
  {
  }

  lemma PaddedDigits(b: BigNumber) returns (lead: nat, trail: nat)
    requires b.Finite? && Canonical(b) && b.coeff != []
    ensures var nt := TextParts(b);
            && nt.whole + FracDigits(nt) == Zeros(lead) + b.coeff + Zeros(trail)
            && |nt.whole| + (if nt.exp.Some? then b.e else 0) - lead - 1 == b.e
  {
    var c, e := b.coeff, b.e;
    lead, trail := 0, 0;
    NoPadding(c);
    if e <= -7 || e >= 21 {
      FirstAndRest(c);
    } else if e < 0 {
      lead := -e;
      ZerosBefore(c, lead);
    } else if e + 1 < |c| {
      Halves(c, e + 1);
    } else {
      trail := e + 1 - |c|;
      ZerosAfter(c, trail);
    }
  }

  lemma FirstAndRest(c: Text)
    requires c != []
    ensures [c[0]] + (if |c| > 1 then c[1..] else []) == c
  {
  }

  /** Writing a number and reading the text back gives the same number, sign of zero included. */
  lemma TextRoundTrip(b: BigNumber)
    requires b.Finite? && Canonical(b)
    ensures NewBigNumber(ToText(b)) == b
  {
    TextPartsWritten(b, []);
    TextPartsStrict(b);
    assert ToText(b) + [] == ToText(b);
    ScanWritten(TextParts(b), []);
    ConstructParts(b);
  }

  // ---------- What a number text denotes ----------

  function Pow10(n: nat): (p: nat)
    ensures p >= 1
  {
    if n == 0 then 1 else 10 * Pow10(n - 1)
  }

  /** The exponent of the leading digit of a whole number. */
  function Log10(n: int): nat {
    if n < 10 then 0 else 1 + Log10(n / 10)
  }

  /** A number text denotes Mantissa * 10^Scale, negated after a minus. */
  function Mantissa(nt: NumberText): int {
    Numeral(nt.whole + if nt.frac.Some? then nt.frac.value else [])
  }

  function Scale(nt: NumberText): int {
    (match nt.exp
     case None => 0
     case Some(x) => if x.sign == Some(0x2D) then -Numeral(x.digits) else Numeral(x.digits))
    - if nt.frac.Some? then |nt.frac.value| else 0
  }

  lemma PartsValue(nt: NumberText)
    requires WellScanned(nt)
    ensures Mantissa(nt) == AllDigitsOf(nt) && Scale(nt) == Shift(nt)
  {
    NumeralIs(nt.whole + FracDigits(nt));
    if nt.exp.Some? { NumeralIs(nt.exp.value.digits); }
  }

  lemma {:induction false} LeadingZerosValue(s: Text)
    requires AllDigits(s)
    ensures var t := s[LeadingZeros(s)..];
            AllDigits(t) && DigitsValue(t) == DigitsValue(s) && (t != [] ==> t[0] != ZERO)
  {
    if s != [] && s[0] == ZERO {
      DropZero(s);
      LeadingZerosValue(s[1..]);
      assert s[1..][LeadingZeros(s[1..])..] == s[LeadingZeros(s)..];
    }
  }

  lemma {:induction false} DropZero(s: Text)
    requires AllDigits(s) && s != [] && s[0] == ZERO
    ensures AllDigits(s[1..]) && DigitsValue(s[1..]) == DigitsValue(s)
  {
    if |s| > 1 {
      DropZero(s[..|s| - 1]);
      assert s[1..][..|s| - 2] == s[..|s| - 1][1..];
    } else {
      assert s[..0] == [];
    }
  }

  lemma TimesTen(v: nat, p: nat)
    ensures v * (10 * p) == v * p * 10
  {
  }

  lemma {:induction false} TrimRightValue(s: Text)
    requires AllDigits(s)
    ensures var t := TrimRight(s);
            && |t| <= |s| && t == s[..|t|] && (t != [] ==> t[|t| - 1] != ZERO)
            && DigitsValue(s) == DigitsValue(t) * Pow10(|s| - |t|)
  {
    if s != [] && s[|s| - 1] == ZERO {
      var s' := s[..|s| - 1];
      TrimRightValue(s');
      var t := TrimRight(s');
      TimesTen(DigitsValue(t), Pow10(|s'| - |t|));
    }
  }

  lemma {:induction false} LeadingDigit(s: Text)
    requires AllDigits(s) && s != [] && s[0] != ZERO
    ensures DigitsValue(s) > 0 && Log10(DigitsValue(s)) == |s| - 1
  {
    var s' := s[..|s| - 1];
    if s' != [] {
      LeadingDigit(s');
      assert DigitsValue(s) / 10 == DigitsValue(s');
    }
  }

  /**
   The constructor keeps the exact decimal a text denotes while the exponent of its leading digit is
   in range. It is infinite exactly above the range, and a signed zero for zero and below the range.
   */
  lemma ConstructValue(nt: NumberText)
    requires WellScanned(nt)
    ensures Mantissa(nt) >= 0
    ensures var b, m := Construct(nt), Mantissa(nt);
            var e := Log10(m) + Scale(nt);
            && Canonical(b)
            && (b.NonFinite? <==> m > 0 && e > 10_000_000)
            && (m == 0 || e < -10_000_000 ==> b == Finite(nt.neg, [], 0))
            && (m > 0 && -10_000_000 <= e <= 10_000_000 ==>
                  && b.neg == nt.neg && b.e == e && b.coeff != [] && Scale(nt) <= e + 1 - |b.coeff|
                  && m == Numeral(b.coeff) * Pow10(e + 1 - |b.coeff| - Scale(nt)))
  {
    PartsValue(nt);
    ConstructDigits(nt);
    if Construct(nt).Finite? { NumeralIs(Construct(nt).coeff); }
  }

  /** Digits and exponent as the constructor takes them. */
  function AllDigitsOf(nt: NumberText): nat
    requires WellScanned(nt)
  {
    DigitsValue(nt.whole + FracDigits(nt))
  }

  function Shift(nt: NumberText): int
    requires WellScanned(nt)
  {
    ExponentValue(nt) - |FracDigits(nt)|
  }

  lemma ConstructDigits(nt: NumberText)
    requires WellScanned(nt)
    ensures var b, m := Construct(nt), AllDigitsOf(nt);
            var e := Log10(m) + Shift(nt);
            && Canonical(b)
            && (b.NonFinite? <==> m > 0 && e > MAX_EXP)
            && (m == 0 || e < MIN_EXP ==> b == Finite(nt.neg, [], 0))
            && (m > 0 && MIN_EXP <= e <= MAX_EXP ==>
                  && b.neg == nt.neg && b.e == e && b.coeff != [] && Shift(nt) <= e + 1 - |b.coeff|
                  && m == DigitsValue(b.coeff) * Pow10(e + 1 - |b.coeff| - Shift(nt)))
  {
    var coeff, e, k := ConstructedFrom(nt);
    assert coeff == [] || k == e + 1 - |coeff| - Shift(nt);
  }

  /** The significant digits, the exponent of the first, and the zeros dropped after the last. */
  lemma ConstructedFrom(nt: NumberText) returns (coeff: Text, e: int, k: nat)
    requires WellScanned(nt)
    ensures AllDigits(coeff) && (coeff == [] <==> AllDigitsOf(nt) == 0)
    ensures coeff != [] ==>
      && coeff[0] != ZERO && coeff[|coeff| - 1] != ZERO
      && e == Log10(AllDigitsOf(nt)) + Shift(nt) && k == e + 1 - |coeff| - Shift(nt)
      && AllDigitsOf(nt) == DigitsValue(coeff) * Pow10(k)
    ensures Construct(nt) ==
            if coeff == [] then Finite(nt.neg, [], 0)
            else if e > MAX_EXP then NonFinite
            else if e < MIN_EXP then Finite(nt.neg, [], 0)
            else Finite(nt.neg, coeff, e)
  {
    var all := nt.whole + FracDigits(nt);
    DigitsJoined(nt.whole, FracDigits(nt));
    coeff := SignificantDigits(all);
    e := |nt.whole| + ExponentValue(nt) - LeadingZeros(all) - 1;
    k := |all| - LeadingZeros(all) - |coeff|;
  }

  // The digits between the zeros at either end carry the value, and their count its leading exponent.
  lemma SignificantDigits(all: Text) returns (coeff: Text)
    requires AllDigits(all)
    ensures var t := all[LeadingZeros(all)..];
            && coeff == TrimRight(t) && AllDigits(coeff) && |coeff| <= |t|
            && (coeff == [] <==> DigitsValue(all) == 0)
            && (coeff != [] ==>
                  && coeff[0] != ZERO && coeff[|coeff| - 1] != ZERO
                  && Log10(DigitsValue(all)) == |t| - 1
                  && DigitsValue(all) == DigitsValue(coeff) * Pow10(|t| - |coeff|))
  {
    LeadingZerosValue(all);
    var t := all[LeadingZeros(all)..];
    TrimRightValue(t);
    coeff := TrimRight(t);
    if coeff != [] {
      LeadingDigit(t);
    }
  }
}
