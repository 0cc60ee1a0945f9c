/** What the printer computes, and the grammar tree its text belongs to. */
module JsonPrinting {
  import opened Options
  import opened CodeUnits
  import opened BigNumbers
  import opened JsonValues
  import opened JsonSyntax

  // ---------- Strings ----------

  /** The characters that are never written raw. */
  predicate Escapable(c: Unit) {
    || c == BACKSLASH || c == QUOTE || c <= 0x1F || 0x7F <= c <= 0x9F || c == 0xAD
    || 0x600 <= c <= 0x604 || c == 0x70F || c == 0x17B4 || c == 0x17B5
    || 0x200C <= c <= 0x200F || 0x2028 <= c <= 0x202F || 0x2060 <= c <= 0x206F
    || c == 0xFEFF || 0xFFF0 <= c
  }

  /** The letter of a character's short escape, where it has one. */
  function ShortEscape(c: Unit): Option<Unit> {
    if c == 0x08 then Some(0x62)
    else if c == TAB then Some(0x74)
    else if c == NEWLINE then Some(0x6E)
    else if c == 0x0C then Some(0x66)
    else if c == RETURN then Some(0x72)
    else if c == QUOTE || c == BACKSLASH then Some(c)
    else None
  }

  function HexUnit(d: nat): Unit
    requires d < 16
  {
    if d < 10 then 0x30 + d else 0x61 + d - 10
  }

  function HexText(n: nat): (t: Text)
    ensures t != []
  {
    if n < 16 then [HexUnit(n)] else HexText(n / 16) + [HexUnit(n % 16)]
  }

  function LastFour(t: Text): Text
    requires |t| >= 4
  {
    t[|t| - 4..]
  }

  function EscapeText(c: Unit): Text {
    match ShortEscape(c)
    case Some(letter) => [BACKSLASH, letter]
    case None => [BACKSLASH, LETTER_U] + LastFour(Zeros(4) + HexText(c))
  }

  function Replaced(s: Text): Text {
    if s == [] then []
    else (if Escapable(s[0]) then EscapeText(s[0]) else [s[0]]) + Replaced(s[1..])
  }

  function Quote(s: Text): Text {
    if exists i :: 0 <= i < |s| && Escapable(s[i]) then [QUOTE] + Replaced(s) + [QUOTE] else [QUOTE] + s + [QUOTE]
  }

  // ---------- Objects that pass for numbers ----------

  /** The number an object inherits from, if there is one on its prototype chain. */
  function NumberOf(p: Proto): Option<BigNumber> {
    match p
    case Inherits(Num(n)) => Some(n)
    case Inherits(Obj(o)) => NumberOf(o.proto)
    case _ => None
  }

  function ValueAt(members: seq<Member>, key: Text): Json
    requires HasKey(members, key)
  {
    if members[0].key == key then members[0].value
    else
      var i :| 0 <= i < |members| && members[i].key == key;
      assert members[1..][i - 1].key == key;
      ValueAt(members[1..], key)
  }

  /** The member a property name leads to, own or inherited from another parsed object. */
  function Find(o: Object, key: Text): Option<Json>
    decreases o
  {
    if HasKey(o.members, key) then Some(ValueAt(o.members, key))
    else match o.proto
         case Inherits(Obj(p)) => Find(p, key)
         case _ => None
  }

  /** `_isBigNumber`, the member by which the number library knows its own. */
  const DUCK: Text := [0x5F, 0x69, 0x73, 0x42, 0x69, 0x67, 0x4E, 0x75, 0x6D, 0x62, 0x65, 0x72]

  const IS_FINITE: Text := [0x69, 0x73, 0x46, 0x69, 0x6E, 0x69, 0x74, 0x65]
  const TO_JSON: Text := [0x74, 0x6F, 0x4A, 0x53, 0x4F, 0x4E]

  /**
   Taken for a number, but `isFinite` is not the number library's: missing where only `_isBigNumber` makes
   it a number, and hidden by a member of that name where it inherits from one. Printing it throws.
   */
  predicate Disguised(o: Object) {
    if NumberOf(o.proto).Some? then Find(o, IS_FINITE).Some? else Find(o, DUCK) == Some(Bool(true))
  }

  /** The number an object is printed as: what it inherits from, unless a member hides the method `toJSON`. */
  function ShownNumber(o: Object): Option<BigNumber> {
    match NumberOf(o.proto)
    case Some(n) => if n.Finite? && Find(o, TO_JSON).Some? then None else Some(n)
    case None => None
  }

  // Where the library keeps a number's coefficient, exponent and sign: c, e and s.
  const NUMBER_PARTS: seq<Text> := [[0x63], [0x65], [0x73]]

  /** Nothing stands in front of the parts of an inherited number. */
  predicate Clear(o: Object) {
    forall i :: 0 <= i < |NUMBER_PARTS| ==> Find(o, NUMBER_PARTS[i]) == None
  }

  // ---------- Values ----------

  function Join(parts: seq<Text>, sep: Text): Text {
    if parts == [] then []
    else if |parts| == 1 then parts[0]
    else parts[0] + sep + Join(parts[1..], sep)
  }

  function Bracketed(open: Unit, parts: seq<Text>, close: Unit, gap: Text, outer: Text): Text {
    if parts == [] then [open, close]
    else if gap != [] then
      [open, NEWLINE] + gap + Join(parts, [COMMA, NEWLINE] + gap) + [NEWLINE] + outer + [close]
    else [open] + Join(parts, [COMMA]) + [close]
  }

  function ColonText(gap: Text): Text {
    if gap != [] then [COLON, SPACE] else [COLON]
  }

  /** The text of a value at nesting `gap`, each level indented by `indent`. */
  function Print(v: Json, indent: Text, gap: Text): (t: Text)
    ensures t != []
    decreases v, 0
  {
    match v
    case Null => NULL_TEXT
    case Bool(b) => if b then TRUE_TEXT else FALSE_TEXT
    case Str(s) => Quote(s)
    case Num(n) => PrintNumber(n)
    case Arr(items) =>
      Bracketed(LEFT_BRACKET, PrintItems(items, indent, gap + indent), RIGHT_BRACKET, gap + indent, gap)
    case Obj(o) =>
      match ShownNumber(o)
      case Some(n) => PrintNumber(n)
      case None => Bracketed(LEFT_BRACE, PrintMembers(o.members, indent, gap + indent), RIGHT_BRACE, gap + indent, gap)
  }

  function PrintNumber(n: BigNumber): (t: Text)
    ensures t != []
  {
    if n.Finite? then ToText(n) else NULL_TEXT
  }

  function PrintItems(items: seq<Json>, indent: Text, gap: Text): (parts: seq<Text>)
    ensures |parts| == |items|
    decreases items, 1
  {
    if items == [] then [] else [Print(items[0], indent, gap)] + PrintItems(items[1..], indent, gap)
  }

  function PrintMembers(members: seq<Member>, indent: Text, gap: Text): (parts: seq<Text>)
    ensures |parts| == |members|
    decreases members, 1
  {
    if members == [] then []
    else
      [MemberText(members[0].key, Print(members[0].value, indent, gap), gap)]
      + PrintMembers(members[1..], indent, gap)
  }

  function MemberText(key: Text, value: Text, gap: Text): Text {
    Quote(key) + ColonText(gap) + value
  }

  // ---------- The values the printer is given ----------

  /** Numbers as the library makes them, and objects as they can be: no key twice. */
  ghost predicate Regular(v: Json)
    decreases v
  {
    match v
    case Num(n) => Canonical(n)
    case Arr(items) => forall i :: 0 <= i < |items| ==> Regular(items[i])
    case Obj(o) =>
      (match ShownNumber(o)
       case Some(n) => Canonical(n)
       case None => DistinctKeys(o.members) && forall i :: 0 <= i < |o.members| ==> Regular(o.members[i].value))
    case _ => true
  }

  /** No object that is printed by a number's methods hides the number's own parts from them. */
  ghost predicate Unmasked(v: Json)
    decreases v
  {
    match v
    case Arr(items) => forall i :: 0 <= i < |items| ==> Unmasked(items[i])
    case Obj(o) =>
      Disguised(o) || ((NumberOf(o.proto).Some? ==> Clear(o)) &&
                       (ShownNumber(o).None? ==> forall i :: 0 <= i < |o.members| ==> Unmasked(o.members[i].value)))
    case _ => true
  }

  ghost predicate Ordinary(v: Json) {
    Regular(v) && Unmasked(v)
  }

  /** Printing comes to an end without throwing. */
  predicate Printable(v: Json)
    decreases v
  {
    match v
    case Arr(items) => forall i :: 0 <= i < |items| ==> Printable(items[i])
    case Obj(o) =>
      !Disguised(o) && (ShownNumber(o).None? ==> forall i :: 0 <= i < |o.members| ==> Printable(o.members[i].value))
    case _ => true
  }

  /** None where the printer throws. */
  function Stringified(v: Json, indent: Text, gap: Text): Option<Text> {
    if Printable(v) then Some(Print(v, indent, gap)) else None
  }

  /**
   Anywhere inside, no infinite or undefined number, no prototype but the standard one, no member named
   `__proto__`, and none that makes an object pass for a number.
   */
  ghost predicate Plain(v: Json)
    decreases v
  {
    match v
    case Num(n) => n.Finite?
    case Arr(items) => forall i :: 0 <= i < |items| ==> Plain(items[i])
    case Obj(o) =>
      && o.proto.Standard? && !Disguised(o)
      && forall i :: 0 <= i < |o.members| ==> o.members[i].key != PROTO && Plain(o.members[i].value)
    case _ => true
  }

  ghost function KeptNumber(n: BigNumber): Json {
    if n.Finite? then Num(n) else Null
  }

  /**
   What a value has become once it is printed and parsed: null for numbers that are not finite, the number
   for an object that inherits from one, and any other object assembled anew from its own members.
   */
  ghost function Kept(v: Json): Json
    decreases v, 0
  {
    match v
    case Num(n) => KeptNumber(n)
    case Arr(items) => Arr(KeptItems(items))
    case Obj(o) =>
      (match ShownNumber(o)
       case Some(n) => KeptNumber(n)
       case None => Obj(KeptMembers(o.members, EMPTY)))
    case _ => v
  }

  ghost function KeptItems(items: seq<Json>): (r: seq<Json>)
    ensures |r| == |items|
    decreases items, 1
  {
    if items == [] then [] else [Kept(items[0])] + KeptItems(items[1..])
  }

  ghost function KeptMembers(members: seq<Member>, acc: Object): Object
    decreases members, 1
  {
    if members == [] then acc else KeptMembers(members[1..], Assign(acc, members[0].key, Kept(members[0].value)))
  }

  lemma PlainIsPrintable(v: Json)
    requires Plain(v)
    ensures Printable(v)
    decreases v
  {
    match v
    case Arr(items) => forall i | 0 <= i < |items| ensures Printable(items[i]) { PlainIsPrintable(items[i]); }
    case Obj(o) =>
      forall i | 0 <= i < |o.members| ensures Printable(o.members[i].value) { PlainIsPrintable(o.members[i].value); }
    case _ =>
  }

  /** Printing and parsing keep a value that can be printed unchanged exactly when it is plain. */
  lemma {:induction false} KeptExactlyPlain(v: Json)
    requires Regular(v) && Printable(v)
    ensures Kept(v) == v <==> Plain(v)
    decreases v, 0
  {
    match v
    case Arr(items) => KeptItemsExactlyPlain(items);
    case Obj(o) => if ShownNumber(o).None? { KeptObjectExactlyPlain(o); }
    case _ =>
  }

  lemma {:induction false} KeptItemsExactlyPlain(items: seq<Json>)
    requires forall i :: 0 <= i < |items| ==> Regular(items[i]) && Printable(items[i])
    ensures KeptItems(items) == items <==> forall i :: 0 <= i < |items| ==> Plain(items[i])
    decreases items, 1
  {
    if items != [] {
      KeptExactlyPlain(items[0]);
      KeptItemsExactlyPlain(items[1..]);
      assert items == [items[0]] + items[1..];
      assert KeptItems(items)[1..] == KeptItems(items[1..]);
    }
  }

  /** The members with their values replaced by what is kept of them. */
  ghost function Mapped(members: seq<Member>): (r: seq<Member>)
    ensures |r| == |members|
    decreases members, 1
  {
    if members == [] then [] else [Member(members[0].key, Kept(members[0].value))] + Mapped(members[1..])
  }

  lemma {:induction false} KeptWithoutProto(members: seq<Member>, acc: Object)
    requires !HasKey(members, PROTO)
    ensures KeptMembers(members, acc) == Object(acc.proto, acc.members + Mapped(members))
    decreases |members|
  {
    if members != [] {
      var first := [Member(members[0].key, Kept(members[0].value))];
      assert !HasKey(members[1..], PROTO);
      KeptWithoutProto(members[1..], acc.(members := acc.members + first));
      assert acc.members + (first + Mapped(members[1..])) == (acc.members + first) + Mapped(members[1..]);
    } else {
      assert acc.members + [] == acc.members;
    }
  }

  /** A `__proto__` member goes to the setter, and is not among the members afterwards. */
  lemma {:induction false} KeptDropsProto(members: seq<Member>, acc: Object)
    requires DistinctKeys(members) && !HasKey(acc.members, PROTO) && (HasKey(members, PROTO) ==> HasSetter(acc.proto))
    ensures !HasKey(KeptMembers(members, acc).members, PROTO)
    decreases |members|
  {
    if members != [] {
      var acc' := Assign(acc, members[0].key, Kept(members[0].value));
      KeyAdded(acc, members[0].key, Kept(members[0].value), PROTO);
      if HasKey(members[1..], PROTO) {
        var i :| 0 <= i < |members[1..]| && members[1..][i].key == PROTO;
        assert members[i + 1].key == PROTO;
      }
      KeptDropsProto(members[1..], acc');
    }
  }

  lemma {:induction false} MappedExactly(members: seq<Member>)
    requires forall i :: 0 <= i < |members| ==> Regular(members[i].value) && Printable(members[i].value)
    ensures Mapped(members) == members <==> forall i :: 0 <= i < |members| ==> Plain(members[i].value)
    decreases members, 1
  {
    if members != [] {
      KeptExactlyPlain(members[0].value);
      MappedExactly(members[1..]);
      assert members == [members[0]] + members[1..];
      assert Mapped(members)[1..] == Mapped(members[1..]);
    }
  }

  lemma {:induction false} KeptObjectExactlyPlain(o: Object)
    requires ShownNumber(o).None? && Regular(Obj(o)) && Printable(Obj(o))
    ensures KeptMembers(o.members, EMPTY) == o <==> Plain(Obj(o))
    decreases o.members, 2
  {
    MappedExactly(o.members);
    if HasKey(o.members, PROTO) {
      KeptDropsProto(o.members, EMPTY);
    } else {
      KeptWithoutProto(o.members, EMPTY);
      assert [] + Mapped(o.members) == Mapped(o.members);
    }
  }

  // ---------- The tree of a printed value ----------

  /** The blanks before each part of a bracketed text, and after the last one: a line of its own for each. */
  function LeadIn(gap: Text): Text {
    if gap != [] then [0x0A] + gap else []
  }

  function LeadOut(gap: Text, outer: Text): Text {
    if gap != [] then [0x0A] + outer else []
  }

  /** The blank between a colon and its value. */
  function AfterColon(gap: Text): Text {
    if gap != [] then [0x20] else []
  }

  function LowerHex(d: nat): Unit
    requires d < 16
  {
    if d < 10 then 0x30 + d else 0x57 + d
  }

  /** Control characters, and those some readers of JavaScript text choke on. */
  predicate Unsafe(c: Unit) {
    || c < 0x20 || 0x7F <= c <= 0x9F || c == 0xAD || 0x600 <= c <= 0x604 || c == 0x70F
    || c == 0x17B4 || c == 0x17B5 || 0x200C <= c <= 0x200F || 0x2028 <= c <= 0x202F
    || 0x2060 <= c <= 0x206F || c == 0xFEFF || c >= 0xFFF0
  }

  /** How a character is written: by its letter if it has one, by its code if it is unsafe, or else as it is. */
  function ItemOf(c: Unit): Item {
    match c
    case 0x22 => Escape(0x22)
    case 0x5C => Escape(0x5C)
    case 0x08 => Escape(0x62)
    case 0x09 => Escape(0x74)
    case 0x0A => Escape(0x6E)
    case 0x0C => Escape(0x66)
    case 0x0D => Escape(0x72)
    case _ =>
      if Unsafe(c) then Hex([LowerHex(c / 4096), LowerHex(c / 256 % 16), LowerHex(c / 16 % 16), LowerHex(c % 16)])
      else Item.Plain(c)
  }

  function ItemsOf(s: Text): (xs: seq<Item>)
    ensures |xs| == |s|
  {
    if s == [] then [] else [ItemOf(s[0])] + ItemsOf(s[1..])
  }

  ghost function TreeOf(v: Json, indent: Text, gap: Text): Tree
    decreases v, 0
  {
    match v
    case Null => NullTree
    case Bool(b) => if b then TrueTree else FalseTree
    case Str(s) => StringTree(ItemsOf(s))
    case Num(n) => NumberTreeOf(n)
    case Arr(items) =>
      if items == [] then EmptyArray([]) else ArrayTree(ElemsOf(items, indent, gap + indent, gap))
    case Obj(o) =>
      match ShownNumber(o)
      case Some(n) => NumberTreeOf(n)
      case None =>
        if o.members == [] then EmptyObject([]) else ObjectTree(EntriesOf(o.members, indent, gap + indent, gap))
  }

  ghost function NumberTreeOf(n: BigNumber): Tree {
    if n.Finite? then NumberTree(TextParts(n)) else NullTree
  }

  ghost function ElemsOf(items: seq<Json>, indent: Text, gap: Text, outer: Text): Elems
    requires items != []
    decreases items, 1
  {
    var t := TreeOf(items[0], indent, gap);
    if |items| == 1 then LastElem(LeadIn(gap), t, LeadOut(gap, outer))
    else MoreElems(LeadIn(gap), t, [], ElemsOf(items[1..], indent, gap, outer))
  }

  ghost function EntriesOf(members: seq<Member>, indent: Text, gap: Text, outer: Text): Entries
    requires members != []
    decreases members, 1
  {
    var t := TreeOf(members[0].value, indent, gap);
    var key, space := ItemsOf(members[0].key), AfterColon(gap);
    if |members| == 1 then LastEntry(LeadIn(gap), key, [], space, t, LeadOut(gap, outer))
    else MoreEntries(LeadIn(gap), key, [], space, t, [], EntriesOf(members[1..], indent, gap, outer))
  }
}
