/** Printing and parsing undo each other. */
module JsonRoundTrip {
  import opened Options
  import opened Sequences
  import opened CodeUnits
  import opened BigNumbers
  import opened JsonValues
  import opened JsonSyntax
  import opened JsonReading
  import opened JsonGrammar
  import opened JsonPrinting

  // ---------- Strings ----------

  /** The last k hexadecimal digits of a number. */
  function LowDigits(n: nat, k: nat): Text
    decreases k
  {
    if k == 0 then [] else LowDigits(n / 16, k - 1) + [LowerHex(n % 16)]
  }

  lemma {:induction false} NoDigits(k: nat)
    ensures LowDigits(0, k) == Zeros(k)
  {
    if k > 0 { NoDigits(k - 1); }
  }

  function Power16(k: nat): nat {
    if k == 0 then 1 else 16 * Power16(k - 1)
  }

  /** Padding a number's hexadecimal text with zeros and cutting it gives its low digits. */
  lemma {:induction false} PaddedHex(n: nat, z: nat, k: nat)
    requires k > 0 && z >= k && n < Power16(k)
    ensures var t := Zeros(z) + HexText(n); |t| >= k && t[|t| - k..] == LowDigits(n, k)
    decreases k
  {
    var t := Zeros(z) + HexText(n);
    if n < 16 {
      NoDigits(k - 1);
      assert n / 16 == 0 && n % 16 == n;
      assert t == Zeros(z) + [HexUnit(n)];
      assert t[|t| - k..] == Zeros(k - 1) + [HexUnit(n)];
    } else {
      PaddedHex(n / 16, z, k - 1);
      var t' := Zeros(z) + HexText(n / 16);
      assert t == t' + [HexUnit(n % 16)];
      assert t[|t| - k..] == t'[|t'| - (k - 1)..] + [HexUnit(n % 16)];
    }
  }

  /** The padded hexadecimal of a code unit is its four digits. */
  lemma FourDigits(c: Unit)
    ensures LastFour(Zeros(4) + HexText(c))
         == [LowerHex(c / 4096), LowerHex(c / 256 % 16), LowerHex(c / 16 % 16), LowerHex(c % 16)]
  {
    assert Power16(3) == 4096 && Power16(4) == 0x1_0000;
    PaddedHex(c, 4, 4);
    FourLow(c);
  }

  lemma Quarters(c: Unit)
    ensures c / 16 / 16 == c / 256 && c / 16 / 16 / 16 == c / 4096 < 16
    ensures ((c / 4096 * 16 + c / 256 % 16) * 16 + c / 16 % 16) * 16 + c % 16 == c
  {
    var a := c / 16;
    var b := a / 16;
    assert c == a * 16 + c % 16 && a == b * 16 + a % 16 && b == b / 16 * 16 + b % 16;
  }

  lemma LowDigitsFrom(c: nat, a: nat, b: nat, d: nat)
    requires a == c / 16 && b == a / 16 && d == b / 16 && d < 16
    ensures LowDigits(c, 4) == [LowerHex(d), LowerHex(b % 16), LowerHex(a % 16), LowerHex(c % 16)]
  {
    assert LowDigits(d / 16, 0) == [] && d % 16 == d;
    assert LowDigits(d, 1) == [] + [LowerHex(d)];
    assert LowDigits(b, 2) == LowDigits(d, 1) + [LowerHex(b % 16)];
    assert LowDigits(a, 3) == LowDigits(b, 2) + [LowerHex(a % 16)];
  }

  lemma FourLow(c: Unit)
    ensures LowDigits(c, 4) == [LowerHex(c / 4096), LowerHex(c / 256 % 16), LowerHex(c / 16 % 16), LowerHex(c % 16)]
  {
    Quarters(c);
    LowDigitsFrom(c, c / 16, c / 16 / 16, c / 16 / 16 / 16);
  }

  lemma LowerHexValue(d: nat)
    requires d < 16
    ensures HexDigit(LowerHex(d)) == Some(d)
  {
  }

  lemma FourValue(x: nat, y: nat, z: nat, w: nat)
    requires x < 16 && y < 16 && z < 16 && w < 16
    ensures var d := [LowerHex(x), LowerHex(y), LowerHex(z), LowerHex(w)];
            AllHex(d) && HexValue(d) == ((x * 16 + y) * 16 + z) * 16 + w
  {
    LowerHexValue(x);
    LowerHexValue(y);
    LowerHexValue(z);
    LowerHexValue(w);
    var s1 := [] + [LowerHex(x)];
    var s2 := s1 + [LowerHex(y)];
    var s3 := s2 + [LowerHex(z)];
    HexOneMore([], LowerHex(x));
    HexOneMore(s1, LowerHex(y));
    HexOneMore(s2, LowerHex(z));
    HexOneMore(s3, LowerHex(w));
    assert s3 + [LowerHex(w)] == [LowerHex(x), LowerHex(y), LowerHex(z), LowerHex(w)];
  }

  /** Its four digits stand for it. */
  lemma FourDigitsValue(c: Unit)
    ensures var d := [LowerHex(c / 4096), LowerHex(c / 256 % 16), LowerHex(c / 16 % 16), LowerHex(c % 16)];
            AllHex(d) && HexValue(d) == c
  {
    Quarters(c);
    FourValue(c / 4096, c / 256 % 16, c / 16 % 16, c % 16);
  }

  lemma ItemOfCharacter(c: Unit, k: Text)
    ensures StrictItem(ItemOf(c)) && ItemValue(ItemOf(c)) == c
    ensures ItemTo(ItemOf(c), k) == (if Escapable(c) then EscapeText(c) else [c]) + k
  {
    if Escapable(c) && ShortEscape(c).None? {
      FourDigits(c);
      FourDigitsValue(c);
    }
  }

  lemma {:induction false} ItemsOfText(s: Text, k: Text)
    ensures StrictItems(ItemsOf(s)) && ItemsValue(ItemsOf(s)) == s && ItemsTo(ItemsOf(s), k) == Replaced(s) + k
  {
    if s != [] {
      ItemOfCharacter(s[0], ItemsTo(ItemsOf(s[1..]), k));
      ItemsOfText(s[1..], k);
      assert s == [s[0]] + s[1..];
      var xs := ItemsOf(s);
      assert xs[1..] == ItemsOf(s[1..]);
      assert StrictItems(xs) by {
        forall i | 0 <= i < |xs| ensures StrictItem(xs[i]) {
          assert i > 0 ==> xs[i] == xs[1..][i - 1];
        }
      }
    }
  }

  lemma {:induction false} NothingReplaced(s: Text)
    requires forall i :: 0 <= i < |s| ==> !Escapable(s[i])
    ensures Replaced(s) == s
  {
    if s != [] {
      NothingReplaced(s[1..]);
      assert s == [s[0]] + s[1..];
    }
  }

  lemma QuoteWritten(s: Text, k: Text)
    ensures Quote(s) + k == StringTo(ItemsOf(s), k)
    ensures StrictItems(ItemsOf(s)) && ItemsValue(ItemsOf(s)) == s
  {
    ItemsOfText(s, [QUOTE] + k);
    if !exists i :: 0 <= i < |s| && Escapable(s[i]) {
      NothingReplaced(s);
    }
    assert [QUOTE] + Replaced(s) + [QUOTE] + k == [QUOTE] + (Replaced(s) + ([QUOTE] + k));
  }

  // ---------- The printed text is the text of its tree ----------

  lemma NumberPrinted(n: BigNumber, k: Text)
    requires Canonical(n)
    ensures PrintNumber(n) + k == TreeTo(NumberTreeOf(n), k)
  {
    if n.Finite? { TextPartsWritten(n, k); }
  }

  lemma {:induction false} Printed(v: Json, indent: Text, gap: Text, k: Text)
    requires Regular(v)
    ensures Print(v, indent, gap) + k == TreeTo(TreeOf(v, indent, gap), k)
    decreases v, 0
  {
    match v
    case Null =>
    case Bool(b) =>
    case Str(s) => QuoteWritten(s, k);
    case Num(n) => NumberPrinted(n, k);
    case Arr(items) => PrintedArray(items, indent, gap, k);
    case Obj(o) =>
      match ShownNumber(o)
      case Some(n) => NumberPrinted(n, k);
      case None => PrintedObject(o, indent, gap, k);
  }

  lemma {:induction false} PrintedArray(items: seq<Json>, indent: Text, gap: Text, k: Text)
    requires Regular(Arr(items))
    ensures Print(Arr(items), indent, gap) + k == TreeTo(TreeOf(Arr(items), indent, gap), k)
    decreases items, 2
  {
    if items == [] {
      assert [LEFT_BRACKET, RIGHT_BRACKET] + k == [LEFT_BRACKET] + ([] + ([RIGHT_BRACKET] + k));
    } else {
      PrintedItems(items, indent, gap + indent, gap, k);
      BracketedWritten(LEFT_BRACKET, PrintItems(items, indent, gap + indent), RIGHT_BRACKET, gap + indent, gap, k);
    }
  }

  lemma {:induction false} PrintedObject(o: Object, indent: Text, gap: Text, k: Text)
    requires ShownNumber(o).None? && Regular(Obj(o))
    ensures Print(Obj(o), indent, gap) + k == TreeTo(TreeOf(Obj(o), indent, gap), k)
    decreases o.members, 2
  {
    if o.members == [] {
      assert [LEFT_BRACE, RIGHT_BRACE] + k == [LEFT_BRACE] + ([] + ([RIGHT_BRACE] + k));
    } else {
      PrintedMembers(o.members, indent, gap + indent, gap, k);
      BracketedWritten(LEFT_BRACE, PrintMembers(o.members, indent, gap + indent), RIGHT_BRACE, gap + indent, gap, k);
    }
  }

  /** The inside of a bracketed text, from its first blank to what follows it. */
  ghost function Inside(parts: seq<Text>, close: Unit, gap: Text, outer: Text, k: Text): Text {
    LeadIn(gap) + (Join(parts, [COMMA] + LeadIn(gap)) + (LeadOut(gap, outer) + ([close] + k)))
  }

  lemma BracketedWritten(open: Unit, parts: seq<Text>, close: Unit, gap: Text, outer: Text, k: Text)
    requires parts != []
    ensures Bracketed(open, parts, close, gap, outer) + k == [open] + Inside(parts, close, gap, outer, k)
  {
    var b := Join(parts, [COMMA] + LeadIn(gap));
    if gap != [] {
      assert [COMMA, NEWLINE] + gap == [COMMA] + LeadIn(gap);
      assert [open, NEWLINE] + gap == [open] + LeadIn(gap);
      Regroup4([open], LeadIn(gap), b, [NEWLINE] + outer, [close], k);
      assert ([open] + LeadIn(gap) + b) + [NEWLINE] + outer == ([open] + LeadIn(gap) + b) + ([NEWLINE] + outer);
    } else {
      assert [COMMA] + LeadIn(gap) == [COMMA];
      Regroup4([open], [], b, [], [close], k);
      assert [open] + [] + b + [] + [close] == [open] + b + [close];
    }
  }

  lemma Regroup4(o: Text, a: Text, b: Text, c: Text, d: Text, k: Text)
    ensures (o + a + b + c + d) + k == o + (a + (b + (c + (d + k))))
  {
  }

  lemma Regroup(p: Text, comma: Text, a: Text, b: Text, c: Text)
    ensures (p + (comma + a) + b) + c == p + (comma + (a + (b + c)))
  {
  }

  lemma InsideStep(parts: seq<Text>, close: Unit, gap: Text, outer: Text, k: Text)
    requires |parts| > 1
    ensures Inside(parts, close, gap, outer, k)
            == LeadIn(gap) + (parts[0] + ([] + ([COMMA] + Inside(parts[1..], close, gap, outer, k))))
  {
    var a, b, c := LeadIn(gap), Join(parts[1..], [COMMA] + LeadIn(gap)), LeadOut(gap, outer) + ([close] + k);
    Regroup(parts[0], [COMMA], a, b, c);
    assert [] + ([COMMA] + Inside(parts[1..], close, gap, outer, k)) == [COMMA] + (a + (b + c));
  }

  lemma {:induction false} PrintedItems(items: seq<Json>, indent: Text, gap: Text, outer: Text, k: Text)
    requires items != [] && forall i :: 0 <= i < |items| ==> Regular(items[i])
    ensures Inside(PrintItems(items, indent, gap), RIGHT_BRACKET, gap, outer, k)
            == ElemsTo(ElemsOf(items, indent, gap, outer), k)
    decreases items, 1
  {
    var parts, es := PrintItems(items, indent, gap), ElemsOf(items, indent, gap, outer);
    Printed(items[0], indent, gap, AfterElem(es, k));
    if |items| > 1 {
      PrintedItems(items[1..], indent, gap, outer, k);
      assert parts[1..] == PrintItems(items[1..], indent, gap);
      InsideStep(parts, RIGHT_BRACKET, gap, outer, k);
    }
  }

  lemma MemberWritten(key: Text, value: Text, gap: Text, after: Text)
    ensures MemberText(key, value, gap) + after
            == StringTo(ItemsOf(key), [] + ([COLON] + (AfterColon(gap) + (value + after))))
  {
    var colon := ColonText(gap) + (value + after);
    QuoteWritten(key, colon);
    Regroup3(Quote(key), ColonText(gap), value, after);
    ColonWritten(gap, value + after);
  }

  lemma Regroup3(a: Text, b: Text, c: Text, k: Text)
    ensures (a + b + c) + k == a + (b + (c + k))
  {
  }

  lemma ColonWritten(gap: Text, k: Text)
    ensures ColonText(gap) + k == [] + ([COLON] + (AfterColon(gap) + k))
  {
  }

  lemma {:induction false} PrintedMembers(members: seq<Member>, indent: Text, gap: Text, outer: Text, k: Text)
    requires members != [] && forall i :: 0 <= i < |members| ==> Regular(members[i].value)
    ensures Inside(PrintMembers(members, indent, gap), RIGHT_BRACE, gap, outer, k)
            == EntriesTo(EntriesOf(members, indent, gap, outer), k)
    decreases members, 1
  {
    var parts, es := PrintMembers(members, indent, gap), EntriesOf(members, indent, gap, outer);
    var after := AfterEntry(es, k);
    Printed(members[0].value, indent, gap, after);
    MemberWritten(members[0].key, Print(members[0].value, indent, gap), gap, after);
    assert EntriesTo(es, k) == LeadIn(gap) + (parts[0] + after);
    if |members| > 1 {
      PrintedMembers(members[1..], indent, gap, outer, k);
      assert parts[1..] == PrintMembers(members[1..], indent, gap);
      InsideStep(parts, RIGHT_BRACE, gap, outer, k);
    }
  }

  // ---------- The tree is of the standard's grammar, and denotes the value ----------

  lemma BlankAround(indent: Text, gap: Text)
    ensures StrictBlank(indent) && StrictBlank(gap)
        ==> StrictBlank(gap + indent) && StrictBlank(LeadIn(gap)) && StrictBlank(AfterColon(gap))
    ensures Blank(indent) && Blank(gap) ==> Blank(gap + indent) && Blank(LeadIn(gap)) && Blank(AfterColon(gap))
    ensures forall outer :: StrictBlank(outer) ==> StrictBlank(LeadOut(gap, outer))
    ensures forall outer :: Blank(outer) ==> Blank(LeadOut(gap, outer))
  {
  }

  lemma NumberIsStrict(n: BigNumber)
    requires Canonical(n)
    ensures StrictTree(NumberTreeOf(n)) && GoodTree(NumberTreeOf(n))
        && Denote(NumberTreeOf(n)) == Success(KeptNumber(n))
  {
    if n.Finite? {
      TextPartsStrict(n);
      ConstructParts(n);
    }
  }

  lemma {:induction false} TreeIsStrict(v: Json, indent: Text, gap: Text)
    requires Regular(v) && StrictBlank(indent) && StrictBlank(gap)
    ensures StrictTree(TreeOf(v, indent, gap))
    decreases v, 0
  {
    BlankAround(indent, gap);
    match v
    case Str(s) => ItemsOfText(s, []);
    case Num(n) => NumberIsStrict(n);
    case Arr(items) => if items != [] { ElemsAreStrict(items, indent, gap + indent, gap); }
    case Obj(o) =>
      if ShownNumber(o).Some? {
        NumberIsStrict(ShownNumber(o).value);
      } else if o.members != [] {
        EntriesAreStrict(o.members, indent, gap + indent, gap);
      }
    case _ =>
  }

  lemma {:induction false} ElemsAreStrict(items: seq<Json>, indent: Text, gap: Text, outer: Text)
    requires items != [] && StrictBlank(indent) && StrictBlank(gap) && StrictBlank(outer)
    requires forall i :: 0 <= i < |items| ==> Regular(items[i])
    ensures StrictElems(ElemsOf(items, indent, gap, outer))
    decreases items, 1
  {
    BlankAround(indent, gap);
    TreeIsStrict(items[0], indent, gap);
    if |items| > 1 { ElemsAreStrict(items[1..], indent, gap, outer); }
  }

  lemma {:induction false} EntriesAreStrict(members: seq<Member>, indent: Text, gap: Text, outer: Text)
    requires members != [] && StrictBlank(indent) && StrictBlank(gap) && StrictBlank(outer)
    requires forall i :: 0 <= i < |members| ==> Regular(members[i].value)
    ensures StrictEntries(EntriesOf(members, indent, gap, outer))
    decreases members, 1
  {
    BlankAround(indent, gap);
    TreeIsStrict(members[0].value, indent, gap);
    ItemsOfText(members[0].key, []);
    if |members| > 1 { EntriesAreStrict(members[1..], indent, gap, outer); }
  }

  lemma {:induction false} TreeDenotes(v: Json, indent: Text, gap: Text)
    requires Regular(v) && Blank(indent) && Blank(gap)
    ensures GoodTree(TreeOf(v, indent, gap)) && Denote(TreeOf(v, indent, gap)) == Success(Kept(v))
    decreases v, 0
  {
    BlankAround(indent, gap);
    match v
    case Str(s) => ItemsOfText(s, []);
    case Num(n) => NumberIsStrict(n);
    case Arr(items) => if items != [] {
      ElemsDenote(items, indent, gap + indent, gap, []);
      assert [] + KeptItems(items) == KeptItems(items);
    }
    case Obj(o) =>
      if ShownNumber(o).Some? {
        NumberIsStrict(ShownNumber(o).value);
      } else if o.members != [] {
        EntriesDenote(o.members, indent, gap + indent, gap, EMPTY);
      }
    case _ =>
  }

  lemma {:induction false} ElemsDenote(items: seq<Json>, indent: Text, gap: Text, outer: Text, acc: seq<Json>)
    requires items != [] && Blank(indent) && Blank(gap) && Blank(outer)
    requires forall i :: 0 <= i < |items| ==> Regular(items[i])
    ensures var es := ElemsOf(items, indent, gap, outer);
            GoodElems(es) && DenoteElems(es, acc) == Success(acc + KeptItems(items))
    decreases items, 1
  {
    BlankAround(indent, gap);
    TreeDenotes(items[0], indent, gap);
    var acc' := acc + [Kept(items[0])];
    if |items| > 1 {
      ElemsDenote(items[1..], indent, gap, outer, acc');
    }
    KeptItemsStep(items, acc);
  }

  lemma KeptItemsStep(items: seq<Json>, acc: seq<Json>)
    requires items != []
    ensures acc + KeptItems(items) == (acc + [Kept(items[0])]) + KeptItems(items[1..])
    ensures |items| == 1 ==> acc + KeptItems(items) == acc + [Kept(items[0])]
  {
    var first, rest := [Kept(items[0])], KeptItems(items[1..]);
    assert KeptItems(items) == first + rest;
    Associates(acc, first, rest);
    if |items| == 1 {
      assert rest == [] && first + rest == first;
    }
  }

  lemma {:induction false} EntriesDenote(members: seq<Member>, indent: Text, gap: Text, outer: Text, acc: Object)
    requires members != [] && Blank(indent) && Blank(gap) && Blank(outer)
    requires forall i :: 0 <= i < |members| ==> Regular(members[i].value)
    requires DistinctKeys(members) && forall i :: 0 <= i < |members| ==> !HasKey(acc.members, members[i].key)
    ensures var es := EntriesOf(members, indent, gap, outer);
            GoodEntries(es) && DenoteEntries(es, acc) == Success(KeptMembers(members, acc))
    decreases members, 1
  {
    BlankAround(indent, gap);
    TreeDenotes(members[0].value, indent, gap);
    var key, v := members[0].key, Kept(members[0].value);
    ItemsOfText(key, []);
    if |members| > 1 {
      KeysAfterFirst(members, acc, v);
      EntriesDenote(members[1..], indent, gap, outer, Assign(acc, key, v));
    } else {
      assert members[1..] == [];
    }
  }

  lemma KeysAfterFirst(members: seq<Member>, acc: Object, v: Json)
    requires members != [] && DistinctKeys(members)
    requires forall i :: 0 <= i < |members| ==> !HasKey(acc.members, members[i].key)
    ensures var acc', rest := Assign(acc, members[0].key, v), members[1..];
            DistinctKeys(rest) && forall i :: 0 <= i < |rest| ==> !HasKey(acc'.members, rest[i].key)
  {
    forall i | 0 < i < |members| ensures !HasKey(Assign(acc, members[0].key, v).members, members[i].key) {
      KeyAdded(acc, members[0].key, v, members[i].key);
    }
  }

  // ---------- The theorems ----------

  /** With blanks of the standard for an indent, whatever the printer writes is a text of RFC 8259's grammar. */
  lemma PrintsStandardText(v: Json, indent: Text)
    requires Ordinary(v) && StrictBlank(indent) && Stringified(v, indent, []).Some?
    ensures StrictTree(TreeOf(v, indent, [])) && Stringified(v, indent, []) == Some(TreeTo(TreeOf(v, indent, []), []))
  {
    TreeIsStrict(v, indent, []);
    WholeText(v, indent);
  }

  lemma WholeText(v: Json, indent: Text)
    requires Regular(v)
    ensures Print(v, indent, []) == TreeTo(TreeOf(v, indent, []), [])
  {
    Printed(v, indent, [], []);
    assert Print(v, indent, []) + [] == Print(v, indent, []);
  }

  lemma BareDocument(t: Tree)
    ensures DocumentText([], t, []) == TreeTo(t, [])
  {
  }

  /** Parsing a text the printer wrote gives back what printing keeps of the value, for every indent made of blanks. */
  lemma ParsePrinted(v: Json, indent: Text)
    requires Ordinary(v) && Blank(indent) && Stringified(v, indent, []).Some?
    ensures ReadDocument(Stringified(v, indent, []).value) == Success(Kept(v))
  {
    var t := TreeOf(v, indent, []);
    TreeDenotes(v, indent, []);
    WholeText(v, indent);
    BareDocument(t);
    AcceptsGrammar([], t, []);
  }

  /** The value can be printed, and parsing the text gives it back. */
  predicate ComesBack(v: Json, indent: Text) {
    var text := Stringified(v, indent, []);
    text.Some? && ReadDocument(text.value) == Success(v)
  }

  /** The round trip works for plain values, and for no others. */
  lemma RoundTrip(v: Json, indent: Text)
    requires Ordinary(v) && Blank(indent)
    ensures ComesBack(v, indent) <==> JsonPrinting.Plain(v)
  {
    if JsonPrinting.Plain(v) { PlainIsPrintable(v); }
    if Printable(v) {
      ParsePrinted(v, indent);
      KeptExactlyPlain(v);
    }
  }

  // ---------- Values that came from the parser ----------

  /** Canonical finite numbers and distinct keys everywhere inside, prototypes included. */
  ghost predicate WellBuilt(v: Json)
    decreases v
  {
    match v
    case Num(n) => n.Finite? && Canonical(n)
    case Arr(items) => forall i :: 0 <= i < |items| ==> WellBuilt(items[i])
    case Obj(o) =>
      && (o.proto.Inherits? ==> WellBuilt(o.proto.from))
      && DistinctKeys(o.members) && forall i :: 0 <= i < |o.members| ==> WellBuilt(o.members[i].value)
    case _ => true
  }

  lemma {:induction false} InheritedIsWellBuilt(p: Proto)
    requires p.Inherits? ==> WellBuilt(p.from)
    ensures NumberOf(p).Some? ==> Canonical(NumberOf(p).value)
    decreases p
  {
    match p
    case Inherits(Obj(o)) => InheritedIsWellBuilt(o.proto);
    case _ =>
  }

  lemma {:induction false} WellBuiltIsRegular(v: Json)
    requires WellBuilt(v)
    ensures Regular(v)
    decreases v
  {
    match v
    case Arr(items) => forall i | 0 <= i < |items| ensures Regular(items[i]) { WellBuiltIsRegular(items[i]); }
    case Obj(o) =>
      InheritedIsWellBuilt(o.proto);
      forall i | 0 <= i < |o.members| ensures Regular(o.members[i].value) { WellBuiltIsRegular(o.members[i].value); }
    case _ =>
  }

  lemma {:induction false} DenotedIsWellBuilt(t: Tree)
    requires GoodTree(t) && Denote(t).Success?
    ensures WellBuilt(Denote(t).value)
    decreases t, 0
  {
    match t
    case NumberTree(nt) => ConstructValue(nt);
    case ArrayTree(es) => DenotedElemsAreWellBuilt(es, []);
    case ObjectTree(es) => DenotedEntriesAreWellBuilt(es, EMPTY);
    case _ =>
  }

  lemma {:induction false} DenotedElemsAreWellBuilt(es: Elems, acc: seq<Json>)
    requires GoodElems(es) && DenoteElems(es, acc).Success?
    requires forall i :: 0 <= i < |acc| ==> WellBuilt(acc[i])
    ensures WellBuilt(Arr(DenoteElems(es, acc).value))
    decreases es, 1
  {
    DenotedIsWellBuilt(es.tree);
    if es.MoreElems? { DenotedElemsAreWellBuilt(es.tail, acc + [Denote(es.tree).value]); }
  }

  lemma {:induction false} DenotedEntriesAreWellBuilt(es: Entries, acc: Object)
    requires GoodEntries(es) && DenoteEntries(es, acc).Success? && WellBuilt(Obj(acc))
    ensures WellBuilt(Obj(DenoteEntries(es, acc).value))
    decreases es, 1
  {
    var key, v := ItemsValue(es.key), Denote(es.tree).value;
    DenotedIsWellBuilt(es.tree);
    AssignedIsWellBuilt(acc, key, v);
    if es.MoreEntries? { DenotedEntriesAreWellBuilt(es.tail, Assign(acc, key, v)); }
  }

  lemma AssignedIsWellBuilt(o: Object, key: Text, v: Json)
    requires WellBuilt(Obj(o)) && WellBuilt(v) && !HasKey(o.members, key)
    ensures WellBuilt(Obj(Assign(o, key, v)))
  {
  }

  /**
   What the parser returned survives printing and parsing again, at any blank indent, exactly when it is
   plain: not where `__proto__` changed a prototype, and not where `_isBigNumber` makes an object a fake.
   */
  lemma ReparsePrinted(source: Text, v: Json, indent: Text)
    requires ReadDocument(source) == Success(v) && Unmasked(v) && Blank(indent)
    ensures Ordinary(v) && (ComesBack(v, indent) <==> JsonPrinting.Plain(v))
  {
    var _, t, _ := SourceTree(source);
    DenotedIsWellBuilt(t);
    WellBuiltIsRegular(v);
    RoundTrip(v, indent);
  }

  // ---------- Told by the names in the text ----------

  ghost predicate Avoids(t: Tree)
    requires GoodTree(t)
    decreases t
  {
    match t
    case ArrayTree(es) => ElemsAvoid(es)
    case ObjectTree(es) => EntriesAvoid(es)
    case _ => true
  }

  ghost predicate ElemsAvoid(es: Elems)
    requires GoodElems(es)
    decreases es
  {
    Avoids(es.tree) && (es.MoreElems? ==> ElemsAvoid(es.tail))
  }

  /** No name is `__proto__` or `_isBigNumber`. */
  ghost predicate EntriesAvoid(es: Entries)
    requires GoodEntries(es)
    decreases es
  {
    && ItemsValue(es.key) != PROTO && ItemsValue(es.key) != DUCK && Avoids(es.tree)
    && (es.MoreEntries? ==> EntriesAvoid(es.tail))
  }

  ghost predicate PlainAndClear(v: Json) {
    JsonPrinting.Plain(v) && Unmasked(v)
  }

  lemma {:induction false} AvoidingIsPlain(t: Tree)
    requires GoodTree(t) && Denote(t).Success? && Avoids(t)
    ensures PlainAndClear(Denote(t).value)
    decreases t, 0
  {
    match t
    case ArrayTree(es) => ElemsAvoidingArePlain(es, []);
    case ObjectTree(es) => EntriesAvoidingArePlain(es, EMPTY);
    case _ =>
  }

  lemma {:induction false} ElemsAvoidingArePlain(es: Elems, acc: seq<Json>)
    requires GoodElems(es) && DenoteElems(es, acc).Success? && ElemsAvoid(es)
    requires forall i :: 0 <= i < |acc| ==> PlainAndClear(acc[i])
    ensures PlainAndClear(Arr(DenoteElems(es, acc).value))
    decreases es, 1
  {
    AvoidingIsPlain(es.tree);
    if es.MoreElems? { ElemsAvoidingArePlain(es.tail, acc + [Denote(es.tree).value]); }
  }

  lemma {:induction false} EntriesAvoidingArePlain(es: Entries, acc: Object)
    requires GoodEntries(es) && DenoteEntries(es, acc).Success? && EntriesAvoid(es)
    requires PlainAndClear(Obj(acc)) && !HasKey(acc.members, DUCK)
    ensures PlainAndClear(Obj(DenoteEntries(es, acc).value))
    decreases es, 1
  {
    var key, v := ItemsValue(es.key), Denote(es.tree).value;
    AvoidingIsPlain(es.tree);
    KeyAdded(acc, key, v, DUCK);
    if es.MoreEntries? { EntriesAvoidingArePlain(es.tail, Assign(acc, key, v)); }
  }

  /** Every text that parses and names neither `__proto__` nor `_isBigNumber` gives a value that survives. */
  lemma TextsThatAvoidSurvive(before: Text, t: Tree, after: Text, v: Json, indent: Text)
    requires Blank(before) && GoodTree(t) && Blank(after) && Avoids(t) && Blank(indent)
    requires ReadDocument(DocumentText(before, t, after)) == Success(v)
    ensures ComesBack(v, indent)
  {
    AcceptsGrammar(before, t, after);
    AvoidingIsPlain(t);
    ReparsePrinted(DocumentText(before, t, after), v, indent);
  }

  // ---------- Texts that do not ----------

  /** An object with one member, written without blanks. */
  ghost function OneMember(key: Text, t: Tree): Tree {
    ObjectTree(LastEntry([], ItemsOf(key), [], [], t, []))
  }

  lemma ReadsOneMember(key: Text, t: Tree)
    requires GoodTree(t)
    ensures GoodTree(OneMember(key, t)) && GoodItems(ItemsOf(key)) && ItemsValue(ItemsOf(key)) == key
    ensures Denote(t).Success? ==>
      ReadDocument(TreeTo(OneMember(key, t), [])) == Success(Obj(Assign(EMPTY, key, Denote(t).value)))
  {
    ItemsOfText(key, []);
    BareDocument(OneMember(key, t));
    AcceptsGrammar([], OneMember(key, t), []);
  }

  /** The name is the word, character by character. */
  ghost predicate Spells(name: Text, word: string) {
    |name| == |word| && forall i :: 0 <= i < |word| ==> name[i] == word[i] as int
  }

  lemma SpeltProto(name: Text)
    requires Spells(name, "__proto__")
    ensures name == PROTO
  {
    assert |name| == |PROTO| && forall i :: 0 <= i < |PROTO| ==> name[i] == PROTO[i];
  }

  lemma SpeltDuck(name: Text)
    requires Spells(name, "_isBigNumber")
    ensures name == DUCK
  {
    assert |name| == |DUCK| && forall i :: 0 <= i < |DUCK| ==> name[i] == DUCK[i];
  }

  /**
   `{"__proto__":1}` is parsed to an object that inherits from the number, and printed as 1; so with any
   finite number.
   */
  lemma NumberForPrototype(name: Text, nt: NumberText, indent: Text)
    requires Spells(name, "__proto__") && GoodNumber(nt) && Construct(nt).Finite? && Blank(indent)
    ensures var n := Construct(nt);
            var v := Obj(Object(Inherits(Num(n)), []));
            && ReadDocument(TreeTo(OneMember(name, NumberTree(nt)), [])) == Success(v)
            && Stringified(v, indent, []) == Some(ToText(n)) && ReadDocument(ToText(n)) == Success(Num(n))
  {
    ReadsOneMember(name, NumberTree(nt));
    AssignsPrototype(name, Num(Construct(nt)));
    PrintsInherited(nt, indent);
  }

  /** What `__proto__` does to a new object: text and booleans nothing, null the loss of its prototype. */
  lemma AssignsPrototype(name: Text, v: Json)
    requires Spells(name, "__proto__")
    ensures Assign(EMPTY, name, v) ==
            if v.Null? then Object(Bare, [])
            else if v.Str? || v.Bool? then Object(Standard, [])
            else Object(Inherits(v), [])
  {
    SpeltProto(name);
  }

  /** It does so through a setter, which an object without a prototype, or one that hides it, does not pass on. */
  lemma InheritsSetter(name: Text, o: Object, v: Json)
    requires Spells(name, "__proto__")
    ensures HasSetter(Standard) && !HasSetter(Bare) && (!v.Obj? ==> HasSetter(Inherits(v)))
    ensures HasSetter(Inherits(Obj(o))) <==> !HasKey(o.members, name) && HasSetter(o.proto)
    ensures !HasSetter(o.proto) ==> Assign(o, name, v) == Object(o.proto, o.members + [Member(name, v)])
  {
    SpeltProto(name);
  }

  /** Any value under `__proto__`, as it is read. */
  lemma ReadsPrototype(name: Text, t: Tree)
    requires Spells(name, "__proto__") && GoodTree(t) && Denote(t).Success?
    ensures var v := Denote(t).value;
            ReadDocument(TreeTo(OneMember(name, t), [])) == Success(Obj(
              if v.Null? then Object(Bare, [])
              else if v.Str? || v.Bool? then Object(Standard, [])
              else Object(Inherits(v), [])))
  {
    ReadsOneMember(name, t);
    AssignsPrototype(name, Denote(t).value);
  }

  lemma PrintsInherited(nt: NumberText, indent: Text)
    requires GoodNumber(nt) && Construct(nt).Finite? && Blank(indent)
    ensures var n := Construct(nt);
            && Stringified(Obj(Object(Inherits(Num(n)), [])), indent, []) == Some(ToText(n))
            && ReadDocument(ToText(n)) == Success(Num(n))
  {
    ConstructValue(nt);
    ParsePrinted(Num(Construct(nt)), indent);
  }

  /** `{"_isBigNumber":true}` is parsed, and the printer throws on what the parser returned. */
  lemma FakeNumber(name: Text, t: Tree, indent: Text)
    requires Spells(name, "_isBigNumber") && t.TrueTree?
    ensures var v := Obj(Object(Standard, [Member(name, Bool(true))]));
            ReadDocument(TreeTo(OneMember(name, t), [])) == Success(v) && Stringified(v, indent, []) == None
  {
    ReadsOneMember(name, t);
    FakeThrows(name, indent);
  }

  lemma FakeThrows(name: Text, indent: Text)
    requires Spells(name, "_isBigNumber")
    ensures var o := Object(Standard, [Member(name, Bool(true))]);
            Assign(EMPTY, name, Bool(true)) == o && Stringified(Obj(o), indent, []) == None
  {
    SpeltDuck(name);
    var o := Object(Standard, [Member(name, Bool(true))]);
    assert o.members[0].key == DUCK;
    assert EMPTY.members + o.members == o.members;
    assert |DUCK| != |PROTO|;
    assert Disguised(o);
  }

  /** An object that inherits from a number and has one member of its own. */
  ghost function Numbered(n: BigNumber, name: Text): Object {
    Object(Inherits(Num(n)), [Member(name, Null)])
  }

  lemma OwnMember(n: BigNumber, name: Text, other: Text)
    ensures Find(Numbered(n, name), other) == if name == other then Some(Null) else None
  {
    var o := Numbered(n, name);
    assert o.members[0].key == name;
    if name == other { assert HasKey(o.members, other); }
  }

  /** A member `isFinite` makes the printer throw; a member `toJSON` makes the object print as an object. */
  lemma HiddenMethods(n: BigNumber, name: Text, indent: Text)
    requires n.Finite?
    ensures Spells(name, "isFinite") ==> Stringified(Obj(Numbered(n, name)), indent, []) == None
    ensures Spells(name, "toJSON") ==>
      Stringified(Obj(Numbered(n, name)), indent, [])
      == Stringified(Obj(Object(Standard, [Member(name, Null)])), indent, [])
  {
    OwnMember(n, name, IS_FINITE);
    OwnMember(n, name, TO_JSON);
    if Spells(name, "isFinite") {
      assert name == IS_FINITE by { assert forall i :: 0 <= i < |IS_FINITE| ==> name[i] == IS_FINITE[i]; }
    }
    if Spells(name, "toJSON") {
      assert name == TO_JSON by { assert forall i :: 0 <= i < |TO_JSON| ==> name[i] == TO_JSON[i]; }
      assert |DUCK| != |TO_JSON|;
    }
  }
}
