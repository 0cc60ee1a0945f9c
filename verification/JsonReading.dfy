/**
 What the parser computes, as functions from the unread text to a value and the text left over.
 The class in JsonParser is proved to compute these.
 */
module JsonReading {
  import opened Options
  import opened CodeUnits
  import opened BigNumbers
  import opened JsonValues
  import opened JsonSyntax

  datatype Read<+T> = Got(value: T, rest: Text) | Bad(error: SyntaxError) {
    predicate IsFailure() { Bad? }
    function PropagateFailure<U>(): Read<U>
      requires Bad?
    {
      Bad(error)
    }
    function Extract(): (T, Text)
      requires Got?
    {
      (value, rest)
    }
  }

  function ParseHex(c: int): Option<nat> {
    if IsDigit(c) then Some(c - 0x30)
    else if 0x61 <= c <= 0x66 then Some(c - 0x61 + 10)
    else if 0x41 <= c <= 0x46 then Some(c - 0x41 + 10)
    else None
  }

  /** The number that hexadecimal digits add up to, one after another. */
  function HexNumber(s: Text): nat
    requires AllHex(s)
  {
    if s == [] then 0 else HexNumber(s[..|s| - 1]) * 16 + ParseHex(s[|s| - 1]).value
  }

  lemma {:induction false} HexNumberIs(s: Text)
    requires AllHex(s)
    ensures HexNumber(s) == HexValue(s)
  {
    if s != [] { HexNumberIs(s[..|s| - 1]); }
  }

  /** The character a one-letter escape stands for. */
  function Escapee(c: int): Option<Unit> {
    if c == QUOTE || c == BACKSLASH || c == SLASH then Some(c)
    else if c == 0x62 then Some(0x08)
    else if c == 0x66 then Some(0x0C)
    else if c == 0x6E then Some(NEWLINE)
    else if c == 0x72 then Some(RETURN)
    else if c == 0x74 then Some(TAB)
    else None
  }

  function SkipWhite(s: Text): (r: Text)
    ensures |r| <= |s|
  {
    if s != [] && s[0] <= SPACE then SkipWhite(s[1..]) else s
  }

  /** Steps over the wanted characters one by one. */
  function ReadWord(word: Text, s: Text): (r: Read<()>)
    ensures r.Got? ==> |r.rest| == |s| - |word|
  {
    if word == [] then Got((), s)
    else if Peek(s) != word[0] then Bad(Expected(word[0], Peek(s)))
    else ReadWord(word[1..], s[1..])
  }

  function ReadNumber(s: Text): (r: Read<BigNumber>)
  {
    ScanSplits(s);
    var (nt, rest) := Scan(s);
    var n := if Numeric(nt) then Construct(nt) else NonFinite;
    if n.Finite? then Got(n, rest) else Bad(BadNumber)
  }

  /** Up to `n` hexadecimal digits after `\u`; a character that is not one ends the run and is dropped. */
  function ReadHex(s: Text, n: nat, acc: Text): (r: (Text, Text))
    requires AllHex(acc) && |acc| + n <= 4
    ensures AllHex(r.0) && |r.0| <= 4 && |r.1| <= |s|
  {
    if n == 0 then (acc, s)
    else if s == [] then (acc, [])
    else if ParseHex(s[0]).Some? then ReadHex(s[1..], n - 1, acc + [s[0]])
    else (acc, s[1..])
  }

  function ReadChars(s: Text, acc: Text): (r: Read<Text>)
    ensures r.Got? ==> |r.rest| < |s|
    decreases |s|
  {
    if s == [] then Bad(BadString)
    else if s[0] == QUOTE then Got(acc, s[1..])
    else if s[0] != BACKSLASH then ReadChars(s[1..], acc + [s[0]])
    else if Peek(s[1..]) == LETTER_U then
      var (digits, rest) := ReadHex(s[2..], 4, []);
      HexNumberIs(digits);
      HexBound(digits);
      ReadChars(rest, acc + [HexNumber(digits)])
    else if Escapee(Peek(s[1..])).Some? then ReadChars(s[2..], acc + [Escapee(Peek(s[1..])).value])
    else Bad(BadString)
  }

  function ReadString(s: Text): (r: Read<Text>)
    ensures r.Got? ==> |r.rest| < |s|
  {
    if Peek(s) != QUOTE then Bad(BadString) else ReadChars(s[1..], [])
  }

  function ReadLiteral(s: Text): (r: Read<Json>)
    ensures r.Got? ==> |r.rest| < |s|
  {
    if Peek(s) == TRUE_TEXT[0] then
      var (_, rest) :- ReadWord(TRUE_TEXT, s);
      Got(Bool(true), rest)
    else if Peek(s) == FALSE_TEXT[0] then
      var (_, rest) :- ReadWord(FALSE_TEXT, s);
      Got(Bool(false), rest)
    else if Peek(s) == NULL_TEXT[0] then
      var (_, rest) :- ReadWord(NULL_TEXT, s);
      Got(Null, rest)
    else Bad(Unexpected(Peek(s)))
  }

  function ReadValue(s0: Text): (r: Read<Json>)
    ensures r.Got? ==> |r.rest| < |s0|
    decreases |s0|, 1
  {
    var s := SkipWhite(s0);
    if Peek(s) == LEFT_BRACE then ReadObject(s)
    else if Peek(s) == LEFT_BRACKET then ReadArray(s)
    else if Peek(s) == QUOTE then
      var (text, rest) :- ReadString(s);
      Got(Str(text), rest)
    else if Peek(s) == MINUS || IsDigit(Peek(s)) then
      ReadNumberShrinks(s);
      var (n, rest) :- ReadNumber(s);
      Got(Num(n), rest)
    else ReadLiteral(s)
  }

  function ReadArray(s: Text): (r: Read<Json>)
    requires Peek(s) == LEFT_BRACKET
    ensures r.Got? ==> |r.rest| < |s|
    decreases |s|, 0
  {
    var t := SkipWhite(s[1..]);
    if Peek(t) == RIGHT_BRACKET then Got(Arr([]), t[1..])
    else
      var (items, rest) :- ReadElems(t, []);
      Got(Arr(items), rest)
  }

  function ReadElems(s: Text, acc: seq<Json>): (r: Read<seq<Json>>)
    ensures r.Got? ==> |r.rest| < |s|
    decreases |s|, 2
  {
    if s == [] then Bad(BadArray)
    else
      var (v, after) :- ReadValue(s);
      var t := SkipWhite(after);
      if Peek(t) == RIGHT_BRACKET then Got(acc + [v], t[1..])
      else if Peek(t) != COMMA then Bad(Expected(COMMA, Peek(t)))
      else ReadElems(SkipWhite(t[1..]), acc + [v])
  }

  function ReadObject(s: Text): (r: Read<Json>)
    requires Peek(s) == LEFT_BRACE
    ensures r.Got? ==> |r.rest| < |s|
    decreases |s|, 0
  {
    var t := SkipWhite(s[1..]);
    if Peek(t) == RIGHT_BRACE then Got(Obj(EMPTY), t[1..])
    else
      var (o, rest) :- ReadEntries(t, EMPTY);
      Got(Obj(o), rest)
  }

  function ReadEntries(s: Text, acc: Object): (r: Read<Object>)
    ensures r.Got? ==> |r.rest| < |s|
    decreases |s|, 2
  {
    if s == [] then Bad(BadObject)
    else
      var (key, afterKey) :- ReadString(s);
      var c := SkipWhite(afterKey);
      if Peek(c) != COLON then Bad(Expected(COLON, Peek(c)))
      else if HasKey(acc.members, key) then Bad(DuplicateKey(key))
      else
        var (v, after) :- ReadValue(c[1..]);
        var acc' := Assign(acc, key, v);
        var t := SkipWhite(after);
        if Peek(t) == RIGHT_BRACE then Got(acc', t[1..])
        else if Peek(t) != COMMA then Bad(Expected(COMMA, Peek(t)))
        else ReadEntries(SkipWhite(t[1..]), acc')
  }

  /** The whole of `parse`; the parser starts on a blank that is not part of the source. */
  function ReadDocument(source: Text): Result<Json> {
    match ReadValue([SPACE] + source)
    case Bad(e) => Failure(e)
    case Got(v, rest) => if SkipWhite(rest) == [] then Success(v) else Failure(TrailingText)
  }

  lemma ReadNumberShrinks(s: Text)
    requires Peek(s) == MINUS || IsDigit(Peek(s))
    ensures var r := ReadNumber(s); r.Got? ==> |r.rest| < |s|
  {
    ScanSplits(s);
    var (nt, rest) := Scan(s);
    var e := ExpTo(nt.exp, rest);
    assert |rest| <= |e| <= |FracTo(nt.frac, e)|;
  }
}
