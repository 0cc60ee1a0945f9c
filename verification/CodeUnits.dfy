/** JavaScript strings as sequences of 16-bit code units, and the decimal digits in them. */
module CodeUnits {

  type Unit = u: int | 0 <= u < 0x1_0000

  type Text = seq<Unit>

  /** What a one-character read yields past the end, where JavaScript has the empty string. */
  const END := -1

  const TAB: Unit := 0x09
  const NEWLINE: Unit := 0x0A
  const RETURN: Unit := 0x0D
  const SPACE: Unit := 0x20
  const QUOTE: Unit := 0x22
  const PLUS: Unit := 0x2B
  const COMMA: Unit := 0x2C
  const MINUS: Unit := 0x2D
  const DOT: Unit := 0x2E
  const SLASH: Unit := 0x2F
  const ZERO: Unit := 0x30
  const ONE: Unit := 0x31
  const NINE: Unit := 0x39
  const COLON: Unit := 0x3A
  const UPPER_E: Unit := 0x45
  const LEFT_BRACKET: Unit := 0x5B
  const BACKSLASH: Unit := 0x5C
  const RIGHT_BRACKET: Unit := 0x5D
  const LOWER_E: Unit := 0x65
  const LEFT_BRACE: Unit := 0x7B
  const RIGHT_BRACE: Unit := 0x7D

  function Peek(s: Text): int {
    if s == [] then END else s[0]
  }

  function Tail(s: Text): Text {
    if s == [] then [] else s[1..]
  }

  predicate IsDigit(c: int) {
    ZERO <= c <= NINE
  }

  predicate AllDigits(s: Text) {
    forall i :: 0 <= i < |s| ==> 0x30 <= s[i] <= 0x39
  }

  /** The longest prefix of digits, and what follows it. */
  function TakeDigits(s: Text): Text {
    if s != [] && IsDigit(s[0]) then [s[0]] + TakeDigits(s[1..]) else []
  }

  function DropDigits(s: Text): Text {
    if s != [] && IsDigit(s[0]) then DropDigits(s[1..]) else s
  }

  lemma {:induction false} DigitsSplit(s: Text)
    ensures s == TakeDigits(s) + DropDigits(s)
    ensures AllDigits(TakeDigits(s)) && !IsDigit(Peek(DropDigits(s)))
  {
    if s != [] && IsDigit(s[0]) {
      DigitsSplit(s[1..]);
    }
  }

  lemma {:induction false} DigitsStop(d: Text, k: Text)
    requires AllDigits(d) && !IsDigit(Peek(k))
    ensures TakeDigits(d + k) == d && DropDigits(d + k) == k
  {
    if d == [] {
      assert d + k == k;
    } else {
      assert (d + k)[1..] == d[1..] + k;
      DigitsStop(d[1..], k);
    }
  }

  /** The number a digit text stands for. */
  function DigitsValue(s: Text): nat
    requires AllDigits(s)
  {
    if s == [] then 0 else DigitsValue(s[..|s| - 1]) * 10 + (s[|s| - 1] - ZERO)
  }

  /** The same, from the character codes of the digits. */
  function Numeral(s: Text): int {
    if s == [] then 0 else Numeral(s[..|s| - 1]) * 10 + (s[|s| - 1] as int - 0x30)
  }

  lemma {:induction false} NumeralIs(s: Text)
    requires AllDigits(s)
    ensures DigitsValue(s) == Numeral(s)
  {
    if s != [] { NumeralIs(s[..|s| - 1]); }
  }

  /** The shortest text of a number. */
  function NatText(n: nat): Text {
    if n < 10 then [ZERO + n] else NatText(n / 10) + [ZERO + n % 10]
  }

  lemma {:induction false} NatTextValue(n: nat)
    ensures AllDigits(NatText(n)) && DigitsValue(NatText(n)) == n
    ensures NatText(n) != [] && (NatText(n)[0] == ZERO ==> n == 0)
  {
    if n < 10 {
      assert NatText(n)[..0] == [];
    } else {
      NatTextValue(n / 10);
      assert NatText(n)[..|NatText(n)| - 1] == NatText(n / 10);
    }
  }

  function Zeros(n: nat): (z: Text)
    ensures |z| == n && forall i :: 0 <= i < n ==> z[i] == ZERO
  {
    if n == 0 then [] else Zeros(n - 1) + [ZERO]
  }
}
