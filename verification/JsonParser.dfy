/** The recursive-descent parser: a cursor over the source text, moved one character at a time. */
module JsonParser {
  import opened Options
  import opened Sequences
  import opened CodeUnits
  import opened BigNumbers
  import opened JsonValues
  import opened JsonSyntax
  import opened JsonReading

  class Parser {
    var text: Text
    var at: nat // the index of the next character
    var ch: int // the current character, END when there is none

    /** Before the first step the current character is a blank that is not part of the source. */
    ghost function Unread(): Text
      reads this
    {
      var all := [SPACE] + text;
      if at <= |all| then all[at..] else []
    }

    ghost predicate Valid()
      reads this
    {
      ch == Peek(Unread())
    }

    /** The cursor stands where the reading function stopped, with the result it gave. */
    ghost predicate Did<T(!new)>(s: Text, was: Text, read: Read<T>, r: Result<T>)
      reads this
    {
      && Valid() && text == was
      && match read
         case Got(v, rest) => r == Success(v) && Unread() == rest
         case Bad(e) => r == Failure(e)
    }

    constructor ()
      ensures Valid() && text == []
    {
      text, at, ch := [], 0, SPACE;
    }

    method Next()
      requires Valid()
      modifies this`at, this`ch
      ensures Valid() && Unread() == Tail(old(Unread()))
    {
      ch := if at < |text| then text[at] else END;
      at := at + 1;
    }

    /** Steps over a character that must be the current one. */
    method Expect(c: Unit) returns (r: Result<()>)
      requires Valid()
      modifies this`at, this`ch
      ensures Valid()
      ensures r == if Peek(old(Unread())) == c then Success(()) else Failure(Expected(c, Peek(old(Unread()))))
      ensures r.Success? ==> Unread() == old(Unread())[1..]
    {
      if c != ch {
        return Failure(Expected(c, ch));
      }
      Next();
      return Success(());
    }

    method Digits() returns (digits: Text)
      requires Valid()
      modifies this`at, this`ch
      ensures Valid() && Unread() == DropDigits(old(Unread())) && digits == TakeDigits(old(Unread()))
    {
      digits := [];
      while IsDigit(ch)
        invariant Valid()
        invariant DropDigits(Unread()) == DropDigits(old(Unread()))
        invariant digits + TakeDigits(Unread()) == TakeDigits(old(Unread()))
        decreases |Unread()|
      {
        Associates(digits, [ch], TakeDigits(Unread()[1..]));
        digits := digits + [ch];
        Next();
      }
    }

    method Fraction() returns (written: Text)
      requires Valid()
      modifies this`at, this`ch
      ensures Valid() && Unread() == ScanFrac(old(Unread())).1
      ensures written == FracTo(ScanFrac(old(Unread())).0, [])
    {
      written := [];
      if ch == DOT {
        Next();
        var digits := Digits();
        written := [DOT] + digits;
      }
    }

    method Power() returns (written: Text)
      requires Valid()
      modifies this`at, this`ch
      ensures Valid() && Unread() == ScanExp(old(Unread())).1
      ensures written == ExpTo(ScanExp(old(Unread())).0, [])
    {
      ghost var s := Unread();
      written := [];
      if ch == LOWER_E || ch == UPPER_E {
        ghost var mark := ch;
        var sign: Text := [];
        written := [ch];
        Next();
        if ch == MINUS || ch == PLUS {
          sign := [ch];
          written := written + [ch];
          Next();
        }
        assert sign == ExpSignTo(ScanExpSign(s[1..]).0, []) && Unread() == ScanExpSign(s[1..]).1;
        var digits := Digits();
        PowerWritten(mark, ScanExpSign(s[1..]).0, digits);
        written := written + digits;
      }
    }

    static lemma PowerWritten(mark: Unit, sign: Option<Unit>, digits: Text)
      ensures [mark] + ExpSignTo(sign, []) + digits == ExpTo(Some(Exponent(mark, sign, digits)), [])
      ensures sign.None? ==> [mark] + digits == ExpTo(Some(Exponent(mark, sign, digits)), [])
    {
      assert digits + [] == digits;
      assert sign.Some? ==> [mark] + ([sign.value] + digits) == [mark] + [sign.value] + digits;
    }

    /** Collects the characters that can belong to a number. */
    method NumberCharacters() returns (written: Text)
      requires Valid()
      modifies this`at, this`ch
      ensures Valid() && Unread() == Scan(old(Unread())).1 && written == Collected(Scan(old(Unread())).0)
    {
      ScanPieces(Unread());
      var sign: Text := [];
      if ch == MINUS {
        sign := [MINUS];
        Next();
      }
      var rest := Unsigned();
      written := sign + rest;
    }

    method Unsigned() returns (written: Text)
      requires Valid()
      modifies this`at, this`ch
      ensures Valid()
      ensures var s := DropDigits(old(Unread()));
              && Unread() == ScanExp(ScanFrac(s).1).1
              && written == TakeDigits(old(Unread()))
                  + (FracTo(ScanFrac(s).0, []) + ExpTo(ScanExp(ScanFrac(s).1).0, []))
    {
      var whole := Digits();
      var frac := Fraction();
      var power := Power();
      written := whole + (frac + power);
    }

    method Number() returns (r: Result<BigNumber>)
      requires Valid()
      modifies this`at, this`ch
      ensures Did(old(Unread()), old(text), ReadNumber(old(Unread())), r)
    {
      NumberCollected(Unread());
      var written := NumberCharacters();
      var number := NewBigNumber(written);
      if !number.Finite? {
        return Failure(BadNumber);
      }
      return Success(number);
    }

    static ghost function Collected(nt: NumberText): Text {
      SignTo(nt.neg, []) + (nt.whole + (FracTo(nt.frac, []) + ExpTo(nt.exp, [])))
    }

    // The characters collected along the way are the text of the number that was scanned.
    static lemma CollectedText(s: Text)
      ensures Scan(Collected(Scan(s).0)) == (Scan(s).0, [])
    {
      ScanSplits(s);
      var nt := Scan(s).0;
      ScanWritten(nt, []);
      NumberPieces(nt);
    }

    static lemma ScanPieces(s: Text)
      ensures var s1 := if Peek(s) == MINUS then s[1..] else s;
              var s2 := DropDigits(s1);
              && Collected(Scan(s).0)
                 == SignTo(Peek(s) == MINUS, [])
                     + (TakeDigits(s1) + (FracTo(ScanFrac(s2).0, []) + ExpTo(ScanExp(ScanFrac(s2).1).0, [])))
              && Scan(s).1 == ScanExp(ScanFrac(s2).1).1
    {
    }

    static lemma NumberCollected(s: Text)
      ensures var n := NewBigNumber(Collected(Scan(s).0));
              ReadNumber(s) == if n.Finite? then Got(n, Scan(s).1) else Bad(BadNumber)
    {
      CollectedText(s);
    }

    method ReadQuoted() returns (r: Result<Text>)
      requires Valid()
      modifies this`at, this`ch
      ensures Did(old(Unread()), old(text), ReadString(old(Unread())), r)
    {
      if ch != QUOTE {
        return Failure(BadString);
      }
      var value: Text := [];
      Next();
      while ch != END
        invariant Valid()
        invariant ReadChars(Unread(), value) == ReadString(old(Unread()))
        decreases |Unread()|
      {
        if ch == QUOTE {
          Next();
          return Success(value);
        }
        if ch == BACKSLASH {
          var c := Escaped(value);
          if c.None? {
            break;
          }
          value := value + [c.value];
        } else {
          value := value + [ch];
        }
        Next();
      }
      return Failure(BadString);
    }

    /** The character an escape stands for, with the cursor on its last character; none where it is not one. */
    method Escaped(ghost value: Text) returns (c: Option<Unit>)
      requires Valid() && ch == BACKSLASH
      modifies this`at, this`ch
      ensures Valid() && |Unread()| < |old(Unread())|
      ensures ReadChars(old(Unread()), value)
           == if c.Some? then ReadChars(Tail(Unread()), value + [c.value]) else Bad(BadString)
    {
      Next();
      if ch == LETTER_U {
        var uffff := HexEscape();
        return Some(uffff);
      }
      return Escapee(ch);
    }

    /** What `HexEscape` is still to read, after `digits` of four. */
    ghost function HexToRead(digits: Text): (Text, Text)
      requires AllHex(digits) && |digits| <= 4
      reads this
    {
      ReadHex(Tail(Unread()), 4 - |digits|, digits)
    }

    /** Takes the next character, and its digit value if it is hexadecimal. */
    method NextHex(ghost digits: Text) returns (hex: Option<nat>)
      requires Valid() && AllHex(digits) && |digits| < 4
      modifies this`at, this`ch
      ensures Valid() && hex == ParseHex(ch)
      ensures hex.Some? ==>
        && 0 <= ch < 0x1_0000 && AllHex(digits + [ch])
        && HexNumber(digits + [ch]) == HexNumber(digits) * 16 + hex.value
        && HexToRead(digits + [ch]) == old(HexToRead(digits))
      ensures hex.None? ==> old(HexToRead(digits)) == (digits, Tail(Unread()))
    {
      HexStep(Tail(Unread()), 4 - |digits|, digits);
      Next();
      hex := ParseHex(ch);
      if hex.Some? {
        assert (digits + [ch])[..|digits|] == digits;
      }
    }

    /** The character after `\u`; the cursor is left on the last character looked at. */
    method HexEscape() returns (uffff: Unit)
      requires Valid() && ch == LETTER_U
      modifies this`at, this`ch
      ensures Valid() && Tail(Unread()) == old(HexToRead([])).1 && uffff == HexNumber(old(HexToRead([])).0)
    {
      ghost var digits: Text := [];
      ghost var read := HexToRead([]);
      var n := 0;
      var i := 0;
      while i < 4
        invariant Valid() && AllHex(digits) && i == |digits| <= 4 && HexNumber(digits) == n
        invariant HexToRead(digits) == read
      {
        var hex := NextHex(digits);
        if hex.None? {
          break;
        }
        digits := digits + [ch];
        n := n * 16 + hex.value;
        i := i + 1;
      }
      assert read == (digits, Tail(Unread())) by {
        if i == 4 { HexFull(Tail(Unread()), digits); }
      }
      HexFits(digits);
      uffff := n;
    }

    static lemma HexFull(s: Text, digits: Text)
      requires AllHex(digits) && |digits| == 4
      ensures ReadHex(s, 0, digits) == (digits, s)
    {
    }

    static lemma HexFits(digits: Text)
      requires AllHex(digits) && |digits| <= 4
      ensures HexNumber(digits) < 0x1_0000
    {
      HexNumberIs(digits);
      HexBound(digits);
    }

    static lemma HexStep(s: Text, n: nat, acc: Text)
      requires AllHex(acc) && |acc| + n <= 4 && n > 0
      ensures if s != [] && ParseHex(s[0]).Some? then AllHex(acc + [s[0]])
          && ReadHex(s, n, acc) == ReadHex(s[1..], n - 1, acc + [s[0]])
              else ReadHex(s, n, acc) == (acc, Tail(s))
    {
    }

    method White()
      requires Valid()
      modifies this`at, this`ch
      ensures Valid() && Unread() == SkipWhite(old(Unread()))
    {
      while ch != END && ch <= SPACE
        invariant Valid() && SkipWhite(Unread()) == SkipWhite(old(Unread()))
        decreases |Unread()|
      {
        Next();
      }
    }

    method Word() returns (r: Result<Json>)
      requires Valid()
      modifies this`at, this`ch
      ensures Did(old(Unread()), old(text), ReadLiteral(old(Unread())), r)
    {
      if ch == TRUE_TEXT[0] {
        var _ :- True();
        return Success(Bool(true));
      } else if ch == FALSE_TEXT[0] {
        var _ :- False();
        return Success(Bool(false));
      } else if ch == NULL_TEXT[0] {
        var _ :- Nothing();
        return Success(Null);
      }
      return Failure(Unexpected(ch));
    }

    method True() returns (r: Result<()>)
      requires Valid() && ch == TRUE_TEXT[0]
      modifies this`at, this`ch
      ensures Did(old(Unread()), old(text), ReadWord(TRUE_TEXT, old(Unread())), r)
    {
      var word := TRUE_TEXT;
      WordStep(word, 0, Unread());
      Next();
      var _ :- Letter(word, 1);
      var _ :- Letter(word, 2);
      var _ :- Letter(word, 3);
      return Success(());
    }

    method False() returns (r: Result<()>)
      requires Valid() && ch == FALSE_TEXT[0]
      modifies this`at, this`ch
      ensures Did(old(Unread()), old(text), ReadWord(FALSE_TEXT, old(Unread())), r)
    {
      var word := FALSE_TEXT;
      WordStep(word, 0, Unread());
      Next();
      var _ :- Letter(word, 1);
      var _ :- Letter(word, 2);
      var _ :- Letter(word, 3);
      var _ :- Letter(word, 4);
      return Success(());
    }

    method Nothing() returns (r: Result<()>)
      requires Valid() && ch == NULL_TEXT[0]
      modifies this`at, this`ch
      ensures Did(old(Unread()), old(text), ReadWord(NULL_TEXT, old(Unread())), r)
    {
      var word := NULL_TEXT;
      WordStep(word, 0, Unread());
      Next();
      var _ :- Letter(word, 1);
      var _ :- Letter(word, 2);
      var _ :- Letter(word, 3);
      return Success(());
    }

    /** Steps over one letter of a word, with the rest of the word still to come. */
    method Letter(word: Text, i: nat) returns (r: Result<()>)
      requires Valid() && i < |word|
      modifies this`at, this`ch
      ensures Valid()
      ensures match r
              case Success(_) => ReadWord(word[i..], old(Unread())) == ReadWord(word[i + 1..], Unread())
              case Failure(e) => ReadWord(word[i..], old(Unread())) == Bad(e)
      ensures i + 1 == |word| && r.Success? ==> ReadWord(word[i..], old(Unread())) == Got((), Unread())
    {
      WordStep(word, i, Unread());
      r := Expect(word[i]);
    }

    static lemma WordStep(word: Text, i: nat, t: Text)
      requires i < |word|
      ensures ReadWord(word[i..], t)
              == if Peek(t) != word[i] then Bad(Expected(word[i], Peek(t))) else ReadWord(word[i + 1..], t[1..])
      ensures word[0..] == word
    {
      assert word[i..][1..] == word[i + 1..];
    }

    method Array() returns (r: Result<Json>)
      requires Valid() && ch == LEFT_BRACKET
      modifies this`at, this`ch
      ensures Did(old(Unread()), old(text), ReadArray(old(Unread())), r)
      decreases |Unread()|, 0
    {
      ghost var s := Unread();
      var arr: seq<Json> := [];
      Next();
      White();
      if ch == RIGHT_BRACKET {
        Next();
        return Success(Arr(arr)); // empty array
      }
      ghost var all := ReadElems(Unread(), []);
      while ch != END
        invariant Valid() && |Unread()| < |s|
        invariant ReadElems(Unread(), arr) == all
        decreases |Unread()|
      {
        var v :- Value();
        arr := arr + [v];
        White();
        if ch == RIGHT_BRACKET {
          Next();
          return Success(Arr(arr));
        }
        var _ :- Expect(COMMA);
        White();
      }
      return Failure(BadArray);
    }

    method Object() returns (r: Result<Json>)
      requires Valid() && ch == LEFT_BRACE
      modifies this`at, this`ch
      ensures Did(old(Unread()), old(text), ReadObject(old(Unread())), r)
      decreases |Unread()|, 0
    {
      ghost var s := Unread();
      var obj := EMPTY;
      Next();
      White();
      if ch == RIGHT_BRACE {
        Next();
        return Success(Obj(obj)); // empty object
      }
      ghost var all := ReadEntries(Unread(), EMPTY);
      assert ReadObject(s) == if all.Got? then Got(Obj(all.value), all.rest) else Bad(all.error);
      while ch != END
        invariant Valid() && |Unread()| < |s|
        invariant ReadEntries(Unread(), obj) == all
        decreases |Unread()|
      {
        var key :- ReadQuoted();
        White();
        var _ :- Expect(COLON);
        if HasKey(obj.members, key) {
          return Failure(DuplicateKey(key));
        }
        var v :- Value();
        obj := Assign(obj, key, v);
        White();
        if ch == RIGHT_BRACE {
          Next();
          return Success(Obj(obj));
        }
        var _ :- Expect(COMMA);
        White();
      }
      return Failure(BadObject);
    }

    method Value() returns (r: Result<Json>)
      requires Valid()
      modifies this`at, this`ch
      ensures Did(old(Unread()), old(text), ReadValue(old(Unread())), r)
      decreases |Unread()|, 1
    {
      White();
      if ch == LEFT_BRACE {
        r := Object();
      } else if ch == LEFT_BRACKET {
        r := Array();
      } else if ch == QUOTE {
        var t :- ReadQuoted();
        r := Success(Str(t));
      } else if ch == MINUS || IsDigit(ch) {
        var n :- Number();
        r := Success(Num(n));
      } else {
        r := Word();
      }
    }

    method Parse(source: Text) returns (r: Result<Json>)
      modifies this
      ensures r == ReadDocument(source)
    {
      text := source;
      at := 0;
      ch := SPACE;
      var result :- Value();
      White();
      if ch != END {
        return Failure(TrailingText);
      }
      return Success(result);
    }
  }
}
