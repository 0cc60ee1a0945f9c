/**
 The parser reads exactly the texts of the grammar: every tree's text is read as the value the tree
 denotes, and whatever is read is the text of some tree.
 */
module JsonGrammar {
  import opened Options
  import opened Sequences
  import opened CodeUnits
  import opened BigNumbers
  import opened JsonValues
  import opened JsonSyntax
  import opened JsonReading

  /** What may stand after a value: the end, a blank, or the punctuation that closes it. */
  ghost predicate Follows(k: Text) {
    k == [] || k[0] <= SPACE || k[0] in {COMMA, RIGHT_BRACKET, RIGHT_BRACE}
  }

  ghost function Carry<T>(r: Result<T>, k: Text): Read<T> {
    if r.Success? then Got(r.value, k) else Bad(r.error)
  }

  // ---------- Every text of the grammar is read as what it denotes ----------

  lemma {:induction false} SkipBlank(b: Text, k: Text)
    requires Blank(b)
    ensures SkipWhite(b + k) == SkipWhite(k)
  {
    if b == [] {
      assert b + k == k;
    } else {
      assert (b + k)[1..] == b[1..] + k;
      SkipBlank(b[1..], k);
    }
  }

  lemma TreeStart(t: Tree, k: Text)
    requires GoodTree(t)
    ensures var s := TreeTo(t, k);
            && s != [] && s[0] > SPACE && s[0] != RIGHT_BRACKET && s[0] != RIGHT_BRACE && SkipWhite(s) == s
            && (t.NumberTree? <==> s[0] == MINUS || IsDigit(s[0]))
            && (t.StringTree? <==> s[0] == QUOTE)
            && (t.EmptyArray? || t.ArrayTree? <==> s[0] == LEFT_BRACKET)
            && (t.EmptyObject? || t.ObjectTree? <==> s[0] == LEFT_BRACE)
  {
    if t.NumberTree? {
      var nt := t.parts;
      var f := FracTo(nt.frac, ExpTo(nt.exp, k));
      assert nt.whole != [] ==> (nt.whole + f)[0] == nt.whole[0];
    }
  }

  lemma {:induction false} ReadHexDigits(d: Text, k: Text, n: nat, acc: Text)
    requires AllHex(acc) && AllHex(d) && |acc| + n <= 4 && |d| <= n
    requires |d| < n ==> k != [] && HexDigit(k[0]).None?
    ensures ReadHex(d + k, n, acc) == (acc + d, if |d| < n then k[1..] else k)
  {
    if d == [] {
      assert d + k == k && acc + d == acc;
    } else {
      assert (d + k)[1..] == d[1..] + k;
      assert acc + d == (acc + [d[0]]) + d[1..];
      ReadHexDigits(d[1..], k, n - 1, acc + [d[0]]);
    }
  }

  lemma ReadItem(x: Item, k: Text, acc: Text)
    requires GoodItem(x)
    ensures ReadChars(ItemTo(x, k), acc) == ReadChars(k, acc + [ItemValue(x)])
  {
    var s := ItemTo(x, k);
    match x
    case Plain(c) => assert s[1..] == k;
    case Escape(c) => assert s[1..][0] == c && s[2..] == k;
    case Hex(d) =>
      assert s[1..][0] == LETTER_U && s[2..] == d + k;
      ReadHexDigits(d, k, 4, []);
      HexNumberIs(d);
      assert [] + d == d;
    case BrokenHex(d, c) =>
      var k' := [c] + k;
      assert s[1..][0] == LETTER_U && s[2..] == d + k' && k'[1..] == k;
      ReadHexDigits(d, k', 4, []);
      HexNumberIs(d);
      assert [] + d == d;
  }

  lemma {:induction false} ReadItems(xs: seq<Item>, k: Text, acc: Text)
    requires GoodItems(xs)
    ensures ReadChars(ItemsTo(xs, [QUOTE] + k), acc) == Got(acc + ItemsValue(xs), k)
  {
    if xs == [] {
      assert ([QUOTE] + k)[1..] == k && acc + [] == acc;
    } else {
      ReadItem(xs[0], ItemsTo(xs[1..], [QUOTE] + k), acc);
      ReadItems(xs[1..], k, acc + [ItemValue(xs[0])]);
      assert acc + [ItemValue(xs[0])] + ItemsValue(xs[1..]) == acc + ItemsValue(xs);
    }
  }

  lemma ReadWritten(xs: seq<Item>, k: Text)
    requires GoodItems(xs)
    ensures ReadString(StringTo(xs, k)) == Got(ItemsValue(xs), k)
  {
    var s := StringTo(xs, k);
    assert s[1..] == ItemsTo(xs, [QUOTE] + k);
    ReadItems(xs, k, []);
    assert [] + ItemsValue(xs) == ItemsValue(xs);
  }

  lemma {:induction false} ReadWordWritten(word: Text, k: Text)
    ensures ReadWord(word, word + k) == Got((), k)
  {
    if word == [] {
      assert word + k == k;
    } else {
      assert (word + k)[1..] == word[1..] + k;
      ReadWordWritten(word[1..], k);
    }
  }

  lemma ReadNumberTree(nt: NumberText, k: Text)
    requires GoodNumber(nt) && Follows(k)
    ensures ReadNumber(NumberTo(nt, k)) == var n := Construct(nt); if n.Finite? then Got(n, k) else Bad(BadNumber)
  {
    ScanWritten(nt, k);
  }

  lemma {:induction false} ReadArrayTree(t: Tree, k: Text)
    requires GoodTree(t) && (t.EmptyArray? || t.ArrayTree?)
    ensures ReadArray(TreeTo(t, k)) == Carry(Denote(t), k)
    decreases t, 0
  {
    var s := TreeTo(t, k);
    match t
    case EmptyArray(b) =>
      assert s[1..] == b + ([RIGHT_BRACKET] + k);
      SkipBlank(b, [RIGHT_BRACKET] + k);
    case ArrayTree(es) =>
      assert s[1..] == ElemsTo(es, k);
      SkipBlank(es.before, TreeTo(es.tree, AfterElem(es, k)));
      TreeStart(es.tree, AfterElem(es, k));
      ReadElemTrees(es, [], k);
  }

  lemma {:induction false} ReadObjectTree(t: Tree, k: Text)
    requires GoodTree(t) && (t.EmptyObject? || t.ObjectTree?)
    ensures ReadObject(TreeTo(t, k)) == Carry(Denote(t), k)
    decreases t, 0
  {
    var s := TreeTo(t, k);
    match t
    case EmptyObject(b) =>
      assert s[1..] == b + ([RIGHT_BRACE] + k);
      SkipBlank(b, [RIGHT_BRACE] + k);
    case ObjectTree(es) =>
      assert s[1..] == EntriesTo(es, k);
      SkipBlank(es.before, StringTo(es.key, AfterKey(es, k)));
      ReadEntryTrees(es, EMPTY, k);
  }

  /** Reading a tree's text gives the value it denotes, or its first fault, and stops at its end. */
  lemma {:induction false} ReadTree(t: Tree, k: Text)
    requires GoodTree(t) && Follows(k)
    ensures ReadValue(TreeTo(t, k)) == Carry(Denote(t), k)
    decreases t, 1
  {
    TreeStart(t, k);
    match t
    case NullTree => ReadWordWritten(NULL_TEXT, k);
    case TrueTree => ReadWordWritten(TRUE_TEXT, k);
    case FalseTree => ReadWordWritten(FALSE_TEXT, k);
    case StringTree(xs) => ReadWritten(xs, k);
    case NumberTree(nt) => ReadNumberTree(nt, k);
    case EmptyArray(_) | ArrayTree(_) => ReadArrayTree(t, k);
    case EmptyObject(_) | ObjectTree(_) => ReadObjectTree(t, k);
  }

  lemma FollowsBlank(b: Text, k: Text)
    requires Blank(b) && k != [] && k[0] in {COMMA, RIGHT_BRACKET, RIGHT_BRACE}
    ensures Follows(b + k) && SkipWhite(b + k) == k
  {
    SkipBlank(b, k);
    assert b != [] ==> (b + k)[0] == b[0];
    assert b == [] ==> b + k == k;
  }

  /** What follows an element, and that reading the element stops there. */
  lemma ElemFollowed(es: Elems, k: Text)
    requires GoodElems(es)
    ensures var next := if es.LastElem? then [RIGHT_BRACKET] + k else [COMMA] + ElemsTo(es.tail, k);
            Follows(AfterElem(es, k)) && SkipWhite(AfterElem(es, k)) == next && TreeTo(es.tree, AfterElem(es, k)) != []
  {
    var next := if es.LastElem? then [RIGHT_BRACKET] + k else [COMMA] + ElemsTo(es.tail, k);
    FollowsBlank(es.after, next);
    TreeStart(es.tree, AfterElem(es, k));
  }

  lemma TailElems(es: Elems, k: Text)
    requires GoodElems(es) && es.MoreElems?
    ensures SkipWhite(ElemsTo(es.tail, k)) == TreeTo(es.tail.tree, AfterElem(es.tail, k))
  {
    SkipBlank(es.tail.before, TreeTo(es.tail.tree, AfterElem(es.tail, k)));
    TreeStart(es.tail.tree, AfterElem(es.tail, k));
  }

  lemma {:induction false} ReadElemTrees(es: Elems, acc: seq<Json>, k: Text)
    requires GoodElems(es)
    ensures ReadElems(TreeTo(es.tree, AfterElem(es, k)), acc) == Carry(DenoteElems(es, acc), k)
    decreases es, 1
  {
    ElemFollowed(es, k);
    ReadTree(es.tree, AfterElem(es, k));
    if es.LastElem? {
      assert ([RIGHT_BRACKET] + k)[1..] == k;
    } else {
      var rest := ElemsTo(es.tail, k);
      assert ([COMMA] + rest)[1..] == rest;
      TailElems(es, k);
      if Denote(es.tree).Success? { ReadElemTrees(es.tail, acc + [Denote(es.tree).value], k); }
    }
  }

  lemma EntryFollowed(es: Entries, k: Text)
    requires GoodEntries(es)
    ensures var next := if es.LastEntry? then [RIGHT_BRACE] + k else [COMMA] + EntriesTo(es.tail, k);
            Follows(AfterEntry(es, k)) && SkipWhite(AfterEntry(es, k)) == next
  {
    var next := if es.LastEntry? then [RIGHT_BRACE] + k else [COMMA] + EntriesTo(es.tail, k);
    FollowsBlank(es.after, next);
  }

  /** A name and its colon are read, up to the value. */
  lemma ReadKey(es: Entries, k: Text)
    requires GoodEntries(es)
    ensures ReadString(StringTo(es.key, AfterKey(es, k))) == Got(ItemsValue(es.key), AfterKey(es, k))
    ensures var c, value := SkipWhite(AfterKey(es, k)), TreeTo(es.tree, AfterEntry(es, k));
            c != [] && c[0] == COLON && ReadValue(c[1..]) == ReadValue(value)
  {
    var value := TreeTo(es.tree, AfterEntry(es, k));
    var colon := [COLON] + (es.beforeValue + value);
    ReadWritten(es.key, AfterKey(es, k));
    SkipBlank(es.afterKey, colon);
    assert colon[1..] == es.beforeValue + value;
    ReadAfterBlank(es.beforeValue, value);
  }

  lemma TailEntries(es: Entries, k: Text)
    requires GoodEntries(es) && es.MoreEntries?
    ensures SkipWhite(EntriesTo(es.tail, k)) == StringTo(es.tail.key, AfterKey(es.tail, k))
  {
    SkipBlank(es.tail.before, StringTo(es.tail.key, AfterKey(es.tail, k)));
  }

  lemma {:induction false} ReadEntryTrees(es: Entries, acc: Object, k: Text)
    requires GoodEntries(es)
    ensures ReadEntries(StringTo(es.key, AfterKey(es, k)), acc) == Carry(DenoteEntries(es, acc), k)
    decreases es, 1
  {
    var key := ItemsValue(es.key);
    ReadKey(es, k);
    EntryFollowed(es, k);
    ReadTree(es.tree, AfterEntry(es, k));
    if es.LastEntry? {
      assert ([RIGHT_BRACE] + k)[1..] == k;
    } else {
      var rest := EntriesTo(es.tail, k);
      assert ([COMMA] + rest)[1..] == rest;
      TailEntries(es, k);
      if !HasKey(acc.members, key) && Denote(es.tree).Success? {
        ReadEntryTrees(es.tail, Assign(acc, key, Denote(es.tree).value), k);
      }
    }
  }

  lemma ReadAfterBlank(b: Text, k: Text)
    requires Blank(b)
    ensures ReadValue(b + k) == ReadValue(k)
  {
    SkipBlank(b, k);
  }

  // ---------- Whatever is read is a text of the grammar ----------

  lemma {:induction false} SplitBlank(s: Text) returns (b: Text)
    ensures Blank(b) && s == b + SkipWhite(s)
  {
    b := [];
    if s != [] && s[0] <= SPACE {
      var b' := SplitBlank(s[1..]);
      b := [s[0]] + b';
    }
  }

  lemma {:induction false} SoundHex(s: Text, n: nat, acc: Text) returns (d: Text)
    requires AllHex(acc) && |acc| + n <= 4
    ensures AllHex(d) && |d| <= n && ReadHex(s, n, acc).0 == acc + d
    ensures var rest := ReadHex(s, n, acc).1;
            if |d| == n then s == d + rest
            else if rest == [] && s == d then true
            else |d| < |s| && HexDigit(s[|d|]).None? && s == d + ([s[|d|]] + rest)
  {
    d := [];
    if n == 0 || s == [] || ParseHex(s[0]).None? {
      assert acc + d == acc;
    } else {
      var d' := SoundHex(s[1..], n - 1, acc + [s[0]]);
      d := [s[0]] + d';
      assert acc + [s[0]] + d' == acc + d;
    }
  }

  lemma {:induction false} SoundChars(s: Text, acc: Text) returns (xs: seq<Item>)
    requires ReadChars(s, acc).Got?
    ensures var r := ReadChars(s, acc);
            GoodItems(xs) && s == ItemsTo(xs, [QUOTE] + r.rest) && r.value == acc + ItemsValue(xs)
    decreases |s|
  {
    if s[0] == QUOTE {
      xs := [];
      assert acc + [] == acc;
    } else {
      var x, k := SoundItem(s, acc);
      var xs' := SoundChars(k, acc + [ItemValue(x)]);
      xs := [x] + xs';
      assert xs[1..] == xs' && GoodItems(xs);
      assert acc + [ItemValue(x)] + ItemsValue(xs') == acc + ItemsValue(xs);
    }
  }

  lemma SoundItem(s: Text, acc: Text) returns (x: Item, k: Text)
    requires s != [] && s[0] != QUOTE && ReadChars(s, acc).Got?
    ensures GoodItem(x) && s == ItemTo(x, k) && |k| < |s|
    ensures ReadChars(s, acc) == ReadChars(k, acc + [ItemValue(x)])
  {
    if s[0] != BACKSLASH {
      x, k := Plain(s[0]), s[1..];
    } else if Peek(s[1..]) == LETTER_U {
      var (digits, rest) := ReadHex(s[2..], 4, []);
      var d := SoundHex(s[2..], 4, []);
      assert [] + d == d && digits == d;
      assert s == [BACKSLASH, LETTER_U] + s[2..];
      k := rest;
      x := if |d| == 4 then Hex(d) else BrokenHex(d, s[2..][|d|]);
    } else {
      x, k := Escape(s[1]), s[2..];
    }
    ReadItem(x, k, acc);
  }

  lemma SoundString(s: Text) returns (xs: seq<Item>)
    requires ReadString(s).Got?
    ensures var r := ReadString(s); GoodItems(xs) && s == StringTo(xs, r.rest) && r.value == ItemsValue(xs)
  {
    xs := SoundChars(s[1..], []);
    assert [] + ItemsValue(xs) == ItemsValue(xs);
  }

  lemma {:induction false} SoundWord(word: Text, s: Text)
    requires ReadWord(word, s).Got?
    ensures s == word + ReadWord(word, s).rest
  {
    if word != [] {
      SoundWord(word[1..], s[1..]);
      assert word == [word[0]] + word[1..] && s == [word[0]] + s[1..];
      Associates([word[0]], word[1..], ReadWord(word, s).rest);
    }
  }

  lemma SoundNumber(s: Text) returns (t: Tree)
    requires (Peek(s) == MINUS || IsDigit(Peek(s))) && ReadNumber(s).Got?
    ensures var r := ReadNumber(s); GoodTree(t) && s == TreeTo(t, r.rest) && Denote(t) == Success(Num(r.value))
  {
    ScanSplits(s);
    t := NumberTree(Scan(s).0);
  }

  lemma SoundLiteral(s: Text) returns (t: Tree)
    requires ReadLiteral(s).Got?
    ensures var r := ReadLiteral(s); GoodTree(t) && s == TreeTo(t, r.rest) && Denote(t) == Success(r.value)
  {
    if Peek(s) == TRUE_TEXT[0] {
      SoundWord(TRUE_TEXT, s);
      t := TrueTree;
    } else if Peek(s) == FALSE_TEXT[0] {
      SoundWord(FALSE_TEXT, s);
      t := FalseTree;
    } else {
      SoundWord(NULL_TEXT, s);
      t := NullTree;
    }
  }

  /** Whatever is read as a value is, after leading blanks, the text of a tree that denotes it. */
  lemma {:induction false} SoundValue(s0: Text) returns (b: Text, t: Tree)
    requires ReadValue(s0).Got?
    ensures var r := ReadValue(s0);
            Blank(b) && GoodTree(t) && s0 == b + TreeTo(t, r.rest) && Denote(t) == Success(r.value)
    decreases |s0|, 1
  {
    var s := SkipWhite(s0);
    b := SplitBlank(s0);
    if Peek(s) == LEFT_BRACE {
      t := SoundObject(s);
    } else if Peek(s) == LEFT_BRACKET {
      t := SoundArray(s);
    } else if Peek(s) == QUOTE {
      var xs := SoundString(s);
      t := StringTree(xs);
    } else if Peek(s) == MINUS || IsDigit(Peek(s)) {
      t := SoundNumber(s);
    } else {
      t := SoundLiteral(s);
    }
  }

  lemma {:induction false} SoundArray(s: Text) returns (t: Tree)
    requires Peek(s) == LEFT_BRACKET && ReadArray(s).Got?
    ensures var r := ReadArray(s); GoodTree(t) && s == TreeTo(t, r.rest) && Denote(t) == Success(r.value)
    decreases |s|, 0
  {
    var b := SplitBlank(s[1..]);
    var u := SkipWhite(s[1..]);
    if Peek(u) == RIGHT_BRACKET {
      t := EmptyArray(b);
      assert u == [RIGHT_BRACKET] + u[1..];
    } else {
      var es := SoundElems(b, u, []);
      t := ArrayTree(es);
    }
  }

  lemma ReadElemsStep(s: Text, acc: seq<Json>)
    requires ReadElems(s, acc).Got?
    ensures ReadValue(s).Got?
    ensures var v, u := ReadValue(s), SkipWhite(ReadValue(s).rest);
            && u != [] && |u| <= |v.rest| < |s|
            && if u[0] == RIGHT_BRACKET then ReadElems(s, acc) == Got(acc + [v.value], u[1..])
               else u[0] == COMMA && ReadElems(s, acc) == ReadElems(SkipWhite(u[1..]), acc + [v.value])
  {
  }

  lemma {:induction false} SoundElems(b: Text, s: Text, acc: seq<Json>) returns (es: Elems)
    requires Blank(b) && ReadElems(s, acc).Got?
    ensures var r := ReadElems(s, acc);
            GoodElems(es) && b + s == ElemsTo(es, r.rest) && DenoteElems(es, acc) == Success(r.value)
    decreases |s|, 2
  {
    var rest := ReadElems(s, acc).rest;
    ReadElemsStep(s, acc);
    var b', t := SoundValue(s);
    var v := ReadValue(s);
    var a := SplitBlank(v.rest);
    var u := SkipWhite(v.rest);
    if u[0] == RIGHT_BRACKET {
      es := LastElem(b + b', t, a);
      assert u == [RIGHT_BRACKET] + rest;
    } else {
      var b2 := SplitBlank(u[1..]);
      var tail := SoundElems(b2, SkipWhite(u[1..]), acc + [v.value]);
      es := MoreElems(b + b', t, a, tail);
      assert u == [COMMA] + u[1..];
    }
    assert v.rest == AfterElem(es, rest);
    Associates(b, b', TreeTo(t, v.rest));
  }

  lemma {:induction false} SoundObject(s: Text) returns (t: Tree)
    requires Peek(s) == LEFT_BRACE && ReadObject(s).Got?
    ensures var r := ReadObject(s); GoodTree(t) && s == TreeTo(t, r.rest) && Denote(t) == Success(r.value)
    decreases |s|, 0
  {
    var b := SplitBlank(s[1..]);
    var u := SkipWhite(s[1..]);
    if Peek(u) == RIGHT_BRACE {
      t := EmptyObject(b);
      assert u == [RIGHT_BRACE] + u[1..];
    } else {
      var es := SoundEntries(b, u, EMPTY);
      t := ObjectTree(es);
    }
  }

  lemma {:induction false} SoundEntry(s: Text, acc: Object)
    returns (key: seq<Item>, ak: Text, bv: Text, t: Tree)
    requires ReadEntries(s, acc).Got?
    ensures ReadString(s).Got? && SkipWhite(ReadString(s).rest) != [] && ValueOf(s).Got?
    ensures var v := ValueOf(s);
            && Blank(ak) && Blank(bv) && GoodItems(key) && GoodTree(t)
            && ItemsValue(key) == ReadString(s).value && Denote(t) == Success(v.value)
            && s == StringTo(key, ak + ([COLON] + (bv + TreeTo(t, v.rest))))
    decreases |s|, 2
  {
    key := SoundString(s);
    ak := SplitBlank(ReadString(s).rest);
    var c := SkipWhite(ReadString(s).rest);
    bv, t := SoundValue(c[1..]);
    assert c == [COLON] + c[1..];
  }

  /** Where an entry's value was read, and what stood after it. */
  ghost function ValueOf(s: Text): Read<Json>
    requires ReadString(s).Got? && SkipWhite(ReadString(s).rest) != []
  {
    ReadValue(SkipWhite(ReadString(s).rest)[1..])
  }

  lemma ReadEntriesStep(s: Text, acc: Object)
    requires ReadEntries(s, acc).Got?
    ensures ReadString(s).Got? && SkipWhite(ReadString(s).rest) != [] && ValueOf(s).Got?
    ensures var key, v, u := ReadString(s).value, ValueOf(s), SkipWhite(ValueOf(s).rest);
            && !HasKey(acc.members, key) && u != [] && |u| <= |v.rest| < |s|
            && var acc' := Assign(acc, key, v.value);
               if u[0] == RIGHT_BRACE then ReadEntries(s, acc) == Got(acc', u[1..])
               else u[0] == COMMA && ReadEntries(s, acc) == ReadEntries(SkipWhite(u[1..]), acc')
  {
  }

  lemma {:induction false} SoundEntries(b: Text, s: Text, acc: Object) returns (es: Entries)
    requires Blank(b) && ReadEntries(s, acc).Got?
    ensures var r := ReadEntries(s, acc);
            GoodEntries(es) && b + s == EntriesTo(es, r.rest) && DenoteEntries(es, acc) == Success(r.value)
    decreases |s|, 3
  {
    var rest := ReadEntries(s, acc).rest;
    var key, ak, bv, t := SoundEntry(s, acc);
    ReadEntriesStep(s, acc);
    var v, u := ValueOf(s), SkipWhite(ValueOf(s).rest);
    var a := SplitBlank(v.rest);
    if u[0] == RIGHT_BRACE {
      es := LastEntry(b, key, ak, bv, t, a);
      assert u == [RIGHT_BRACE] + rest;
    } else {
      es := SoundMoreEntries(b, key, ak, bv, t, a, u, Assign(acc, ItemsValue(key), v.value));
    }
    assert v.rest == AfterEntry(es, rest);
  }

  lemma {:induction false} SoundMoreEntries(b: Text, key: seq<Item>, ak: Text, bv: Text, t: Tree, a: Text, u: Text,
                                            acc: Object)
    returns (es: Entries)
    requires Blank(b) && Blank(ak) && Blank(bv) && Blank(a) && GoodItems(key) && GoodTree(t)
    requires Peek(u) == COMMA && ReadEntries(SkipWhite(u[1..]), acc).Got?
    ensures es.MoreEntries? && es == MoreEntries(b, key, ak, bv, t, a, es.tail)
    ensures var r := ReadEntries(SkipWhite(u[1..]), acc);
            && GoodEntries(es) && DenoteEntries(es.tail, acc) == Success(r.value)
            && u == [COMMA] + EntriesTo(es.tail, r.rest)
    decreases |u|, 4
  {
    var b2 := SplitBlank(u[1..]);
    var tail := SoundEntries(b2, SkipWhite(u[1..]), acc);
    assert u == [COMMA] + (b2 + SkipWhite(u[1..]));
    es := MoreEntries(b, key, ak, bv, t, a, tail);
  }

  // ---------- Whole documents ----------

  /** A document: a value with blanks around it. */
  ghost function DocumentText(before: Text, t: Tree, after: Text): Text {
    before + TreeTo(t, after)
  }

  /** Every document of the grammar is parsed to the value it denotes, or to its first fault. */
  lemma AcceptsGrammar(before: Text, t: Tree, after: Text)
    requires Blank(before) && GoodTree(t) && Blank(after)
    ensures ReadDocument(DocumentText(before, t, after)) == Denote(t)
  {
    var s := DocumentText(before, t, after);
    assert [SPACE] + s == ([SPACE] + before) + TreeTo(t, after);
    ReadAfterBlank([SPACE] + before, TreeTo(t, after));
    ReadTree(t, after);
    SkipBlank(after, []);
    assert after + [] == after;
  }

  /** The document a text with a value is. */
  lemma SourceTree(source: Text) returns (before: Text, t: Tree, after: Text)
    requires ReadDocument(source).Success?
    ensures Blank(before) && GoodTree(t) && Blank(after) && source == DocumentText(before, t, after)
    ensures Denote(t) == ReadDocument(source)
  {
    var b;
    b, t := SoundValue([SPACE] + source);
    after := SplitBlank(ReadValue([SPACE] + source).rest);
    assert after + [] == after;
    TreeStart(t, after);
    assert b != [] by { assert (b + TreeTo(t, after))[0] == SPACE; }
    before := b[1..];
    assert source == ([SPACE] + source)[1..] == (b + TreeTo(t, after))[1..] == before + TreeTo(t, after);
  }

  /** The parser accepts a text, with a value, exactly when the text is a document denoting it. */
  lemma ParsesExactlyTheGrammar(source: Text, v: Json)
    ensures ReadDocument(source) == Success(v) <==>
            exists before, t, after ::
              && Blank(before) && GoodTree(t) && Blank(after) && source == DocumentText(before, t, after)
              && Denote(t) == Success(v)
  {
    if ReadDocument(source) == Success(v) {
      var before, t, after := SourceTree(source);
      assert Denote(t) == Success(v);
    }
    forall before, t, after |
      && Blank(before) && GoodTree(t) && Blank(after) && source == DocumentText(before, t, after)
      && Denote(t) == Success(v)
      ensures ReadDocument(source) == Success(v)
    {
      AcceptsGrammar(before, t, after);
    }
  }
}
