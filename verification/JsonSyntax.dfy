/**
 The grammar the parser accepts, as concrete syntax trees. A tree knows the text it is written as and
 the value it denotes. The grammar of RFC 8259, sections 2 to 7, is the subset in `StrictTree`; the
 rest is what this parser lets through besides. Characters are given by their codes, as the standard does,
 so that nothing here depends on the tables the parser and the printer use.
 */
module JsonSyntax {
  import opened Options
  import opened CodeUnits
  import opened BigNumbers
  import opened JsonValues

  /** One character of a string, as written. */
  datatype Item =
    | Plain(c: Unit)
    | Escape(letter: Unit)
    | Hex(digits: Text)
    | BrokenHex(digits: Text, stray: Unit) // fewer than four digits, then a character that is dropped

  /** `before` and `after` are the blanks around an element. */
  datatype Elems =
    | LastElem(before: Text, tree: Tree, after: Text)
    | MoreElems(before: Text, tree: Tree, after: Text, tail: Elems)

  datatype Entries =
    | LastEntry(before: Text, key: seq<Item>, afterKey: Text, beforeValue: Text, tree: Tree, after: Text)
    | MoreEntries(
        before: Text, key: seq<Item>, afterKey: Text, beforeValue: Text, tree: Tree, after: Text, tail: Entries)

  datatype Tree =
    | NullTree
    | TrueTree
    | FalseTree
    | StringTree(chars: seq<Item>)
    | NumberTree(parts: NumberText)
    | EmptyArray(blank: Text)
    | ArrayTree(elems: Elems)
    | EmptyObject(blank: Text)
    | ObjectTree(entries: Entries)

  // ---------- Characters ----------

  /** The value of a hexadecimal digit, of either case. */
  function HexDigit(c: int): Option<nat> {
    if 0x30 <= c <= 0x39 then Some(c - 0x30)
    else if 0x61 <= c <= 0x66 then Some(c - 0x61 + 10)
    else if 0x41 <= c <= 0x46 then Some(c - 0x41 + 10)
    else None
  }

  predicate AllHex(s: Text) {
    forall i :: 0 <= i < |s| ==> HexDigit(s[i]).Some?
  }

  function HexValue(s: Text): nat
    requires AllHex(s)
  {
    if s == [] then 0 else HexValue(s[..|s| - 1]) * 16 + HexDigit(s[|s| - 1]).value
  }

  lemma HexOneMore(s: Text, c: Unit)
    requires AllHex(s) && HexDigit(c).Some?
    ensures AllHex(s + [c]) && HexValue(s + [c]) == HexValue(s) * 16 + HexDigit(c).value
  {
    assert (s + [c])[..|s|] == s;
  }

  lemma {:induction false} HexBound(s: Text)
    requires AllHex(s) && |s| <= 4
    ensures HexValue(s) < (if |s| == 0 then 1 else if |s| == 1 then 0x10 else if |s| == 2 then 0x100
                           else if |s| == 3 then 0x1000 else 0x1_0000)
  {
    if s != [] { HexBound(s[..|s| - 1]); }
  }

  /** Section 7: the eight letters that may follow a backslash, and the characters they stand for. */
  function EscapeValue(letter: Unit): Option<Unit> {
    match letter
    case 0x22 => Some(0x22) // "
    case 0x5C => Some(0x5C) // \
    case 0x2F => Some(0x2F) // /
    case 0x62 => Some(0x08) // b
    case 0x66 => Some(0x0C) // f
    case 0x6E => Some(0x0A) // n
    case 0x72 => Some(0x0D) // r
    case 0x74 => Some(0x09) // t
    case _ => None
  }

  // ---------- Well-formed trees ----------

  predicate Blank(s: Text) {
    forall i :: 0 <= i < |s| ==> s[i] <= 0x20
  }

  predicate GoodItem(x: Item) {
    match x
    case Plain(c) => c != 0x22 && c != 0x5C
    case Escape(c) => EscapeValue(c).Some?
    case Hex(d) => |d| == 4 && AllHex(d)
    case BrokenHex(d, c) => |d| < 4 && AllHex(d) && HexDigit(c).None?
  }

  predicate GoodItems(xs: seq<Item>) {
    forall i :: 0 <= i < |xs| ==> GoodItem(xs[i])
  }

  ghost predicate GoodNumber(nt: NumberText) {
    && WellScanned(nt) && (nt.whole == [] ==> nt.neg && nt.frac.Some? && nt.frac.value != [])
    && (nt.exp.Some? ==> nt.exp.value.digits != [])
  }

  ghost predicate GoodTree(t: Tree)
    decreases t
  {
    match t
    case StringTree(xs) => GoodItems(xs)
    case NumberTree(nt) => GoodNumber(nt)
    case EmptyArray(b) => Blank(b)
    case ArrayTree(es) => GoodElems(es)
    case EmptyObject(b) => Blank(b)
    case ObjectTree(es) => GoodEntries(es)
    case _ => true
  }

  ghost predicate GoodElems(es: Elems)
    decreases es
  {
    && Blank(es.before) && GoodTree(es.tree) && Blank(es.after)
    && (es.MoreElems? ==> GoodElems(es.tail))
  }

  ghost predicate GoodEntries(es: Entries)
    decreases es
  {
    && Blank(es.before) && GoodItems(es.key) && Blank(es.afterKey)
    && Blank(es.beforeValue) && GoodTree(es.tree) && Blank(es.after)
    && (es.MoreEntries? ==> GoodEntries(es.tail))
  }

  // ---------- Trees of RFC 8259 ----------

  predicate StrictBlank(s: Text) {
    forall i :: 0 <= i < |s| ==> s[i] == 0x20 || s[i] == 0x09 || s[i] == 0x0A || s[i] == 0x0D
  }

  predicate StrictItem(x: Item) {
    GoodItem(x) && !x.BrokenHex? && (x.Plain? ==> x.c >= 0x20)
  }

  predicate StrictItems(xs: seq<Item>) {
    forall i :: 0 <= i < |xs| ==> StrictItem(xs[i])
  }

  ghost predicate StrictTree(t: Tree)
    decreases t
  {
    match t
    case StringTree(xs) => StrictItems(xs)
    case NumberTree(nt) => StrictNumber(nt)
    case EmptyArray(b) => StrictBlank(b)
    case ArrayTree(es) => StrictElems(es)
    case EmptyObject(b) => StrictBlank(b)
    case ObjectTree(es) => StrictEntries(es)
    case _ => true
  }

  ghost predicate StrictElems(es: Elems)
    decreases es
  {
    && StrictBlank(es.before) && StrictTree(es.tree) && StrictBlank(es.after)
    && (es.MoreElems? ==> StrictElems(es.tail))
  }

  ghost predicate StrictEntries(es: Entries)
    decreases es
  {
    && StrictBlank(es.before) && StrictItems(es.key) && StrictBlank(es.afterKey)
    && StrictBlank(es.beforeValue) && StrictTree(es.tree) && StrictBlank(es.after)
    && (es.MoreEntries? ==> StrictEntries(es.tail))
  }

  // ---------- The text of a tree, in front of what follows it ----------

  function ItemTo(x: Item, k: Text): Text {
    match x
    case Plain(c) => [c] + k
    case Escape(c) => [0x5C, c] + k
    case Hex(d) => [0x5C, 0x75] + (d + k)
    case BrokenHex(d, c) => [0x5C, 0x75] + (d + ([c] + k))
  }

  function ItemsTo(xs: seq<Item>, k: Text): Text {
    if xs == [] then k else ItemTo(xs[0], ItemsTo(xs[1..], k))
  }

  function StringTo(xs: seq<Item>, k: Text): Text {
    [0x22] + ItemsTo(xs, [0x22] + k)
  }

  function TreeTo(t: Tree, k: Text): Text
    decreases t, 2
  {
    match t
    case NullTree => [0x6E, 0x75, 0x6C, 0x6C] + k
    case TrueTree => [0x74, 0x72, 0x75, 0x65] + k
    case FalseTree => [0x66, 0x61, 0x6C, 0x73, 0x65] + k
    case StringTree(xs) => StringTo(xs, k)
    case NumberTree(nt) => NumberTo(nt, k)
    case EmptyArray(b) => [0x5B] + (b + ([0x5D] + k))
    case ArrayTree(es) => [0x5B] + ElemsTo(es, k)
    case EmptyObject(b) => [0x7B] + (b + ([0x7D] + k))
    case ObjectTree(es) => [0x7B] + EntriesTo(es, k)
  }

  function ElemsTo(es: Elems, k: Text): Text
    decreases es, 1
  {
    es.before + TreeTo(es.tree, AfterElem(es, k))
  }

  function AfterElem(es: Elems, k: Text): Text
    decreases es, 0
  {
    es.after + (if es.LastElem? then [0x5D] + k else [0x2C] + ElemsTo(es.tail, k))
  }

  function EntriesTo(es: Entries, k: Text): Text
    decreases es, 1
  {
    es.before + StringTo(es.key, AfterKey(es, k))
  }

  function AfterKey(es: Entries, k: Text): Text
    decreases es, 0, 1
  {
    es.afterKey + ([0x3A] + (es.beforeValue + TreeTo(es.tree, AfterEntry(es, k))))
  }

  function AfterEntry(es: Entries, k: Text): Text
    decreases es, 0, 0
  {
    es.after + (if es.LastEntry? then [0x7D] + k else [0x2C] + EntriesTo(es.tail, k))
  }

  // ---------- The value of a tree ----------

  function ItemValue(x: Item): Unit
    requires GoodItem(x)
  {
    match x
    case Plain(c) => c
    case Escape(c) => EscapeValue(c).value
    case Hex(d) => HexBound(d); HexValue(d)
    case BrokenHex(d, _) => HexBound(d); HexValue(d)
  }

  function ItemsValue(xs: seq<Item>): Text
    requires GoodItems(xs)
  {
    if xs == [] then [] else [ItemValue(xs[0])] + ItemsValue(xs[1..])
  }

  /**
   The value a tree denotes. Two conditions are outside the grammar: a name must not be a member of its
   object already, and a number's magnitude must be in the library's range. The first failure in text
   order is the one reported.
   */
  ghost function Denote(t: Tree): Result<Json>
    requires GoodTree(t)
    decreases t
  {
    match t
    case NullTree => Success(Null)
    case TrueTree => Success(Bool(true))
    case FalseTree => Success(Bool(false))
    case StringTree(xs) => Success(Str(ItemsValue(xs)))
    case NumberTree(nt) =>
      var n := Construct(nt);
      if n.Finite? then Success(Num(n)) else Failure(BadNumber)
    case EmptyArray(_) => Success(Arr([]))
    case ArrayTree(es) =>
      var items :- DenoteElems(es, []);
      Success(Arr(items))
    case EmptyObject(_) => Success(Obj(EMPTY))
    case ObjectTree(es) =>
      var o :- DenoteEntries(es, EMPTY);
      Success(Obj(o))
  }

  ghost function DenoteElems(es: Elems, acc: seq<Json>): Result<seq<Json>>
    requires GoodElems(es)
    decreases es
  {
    var v :- Denote(es.tree);
    if es.LastElem? then Success(acc + [v]) else DenoteElems(es.tail, acc + [v])
  }

  ghost function DenoteEntries(es: Entries, acc: Object): Result<Object>
    requires GoodEntries(es)
    decreases es
  {
    var key := ItemsValue(es.key);
    if HasKey(acc.members, key) then Failure(DuplicateKey(key))
    else
      var v :- Denote(es.tree);
      var acc' := Assign(acc, key, v);
      if es.LastEntry? then Success(acc') else DenoteEntries(es.tail, acc')
  }

  // ---------- Strict trees are good trees ----------

  lemma {:induction false} StrictIsGood(t: Tree)
    requires StrictTree(t)
    ensures GoodTree(t)
    decreases t
  {
    match t
    case ArrayTree(es) => StrictElemsAreGood(es);
    case ObjectTree(es) => StrictEntriesAreGood(es);
    case _ =>
  }

  lemma {:induction false} StrictElemsAreGood(es: Elems)
    requires StrictElems(es)
    ensures GoodElems(es)
    decreases es
  {
    StrictIsGood(es.tree);
    if es.MoreElems? { StrictElemsAreGood(es.tail); }
  }

  lemma {:induction false} StrictEntriesAreGood(es: Entries)
    requires StrictEntries(es)
    ensures GoodEntries(es)
    decreases es
  {
    StrictIsGood(es.tree);
    if es.MoreEntries? { StrictEntriesAreGood(es.tail); }
  }
}
