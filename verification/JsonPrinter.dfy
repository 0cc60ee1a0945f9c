/** The indenting printer. */
module JsonPrinter {
  import opened Options
  import opened Sequences
  import opened CodeUnits
  import opened BigNumbers
  import opened JsonValues
  import opened JsonSyntax
  import opened JsonPrinting

  /** The third argument of `stringify`. */
  datatype Space = NoSpace | Width(n: int) | Filler(s: Text)

  function Blanks(n: int): Text {
    if n <= 0 then [] else Blanks(n - 1) + [SPACE]
  }

  function IndentOf(space: Space): Text {
    match space
    case NoSpace => []
    case Width(n) => Blanks(n)
    case Filler(s) => s
  }

  // ---------- The parts of arrays and objects ----------

  function Before(parts: seq<Text>, rest: Option<seq<Text>>): Option<seq<Text>> {
    if rest.None? then None else Some(parts + rest.value)
  }

  lemma NothingBefore(rest: Option<seq<Text>>)
    ensures Before([], rest) == rest
  {
    assert rest.Some? ==> [] + rest.value == rest.value;
  }

  lemma BeforeBefore(parts: seq<Text>, t: Text, rest: Option<seq<Text>>)
    ensures Before(parts, Before([t], rest)) == Before(parts + [t], rest)
  {
    if rest.Some? { Associates(parts, [t], rest.value); }
  }

  /** The texts of an array's elements; None where one of them throws. */
  function Texts(items: seq<Json>, indent: Text, gap: Text): Option<seq<Text>> {
    if items == [] then Some([])
    else if !Printable(items[0]) then None
    else Before([Print(items[0], indent, gap)], Texts(items[1..], indent, gap))
  }

  lemma {:induction false} TextsExactly(items: seq<Json>, indent: Text, gap: Text)
    ensures Texts(items, indent, gap) ==
            if forall i :: 0 <= i < |items| ==> Printable(items[i]) then Some(PrintItems(items, indent, gap)) else None
  {
    if items != [] {
      TextsExactly(items[1..], indent, gap);
      assert forall i :: 0 < i < |items| ==> items[i] == items[1..][i - 1];
    }
  }

  lemma OneMoreText(items: seq<Json>, i: nat, indent: Text, gap: Text, parts: seq<Text>)
    requires i < |items|
    ensures var texts := Texts(items[i..], indent, gap);
            && (!Printable(items[i]) ==> texts.None?)
            && (Printable(items[i]) ==>
                  Before(parts, texts)
                  == Before(parts + [Print(items[i], indent, gap)], Texts(items[i + 1..], indent, gap)))
  {
    assert items[i..][1..] == items[i + 1..];
    BeforeBefore(parts, Print(items[i], indent, gap), Texts(items[i + 1..], indent, gap));
  }

  function LineOf(m: Member, indent: Text, gap: Text): Text {
    MemberText(m.key, Print(m.value, indent, gap), gap)
  }

  /** The lines of an object's members; None where one of them throws. */
  function Lines(members: seq<Member>, indent: Text, gap: Text): Option<seq<Text>> {
    if members == [] then Some([])
    else if !Printable(members[0].value) then None
    else Before([LineOf(members[0], indent, gap)], Lines(members[1..], indent, gap))
  }

  lemma {:induction false} LinesExactly(members: seq<Member>, indent: Text, gap: Text)
    ensures Lines(members, indent, gap) ==
            if forall i :: 0 <= i < |members| ==> Printable(members[i].value)
            then Some(PrintMembers(members, indent, gap))
            else None
  {
    if members != [] {
      LinesExactly(members[1..], indent, gap);
      assert forall i :: 0 < i < |members| ==> members[i] == members[1..][i - 1];
    }
  }

  lemma OneMoreLine(members: seq<Member>, i: nat, indent: Text, gap: Text, parts: seq<Text>)
    requires i < |members|
    ensures var lines := Lines(members[i..], indent, gap);
            && (!Printable(members[i].value) ==> lines.None?)
            && (Printable(members[i].value) ==>
                  Before(parts, lines)
                  == Before(parts + [LineOf(members[i], indent, gap)], Lines(members[i + 1..], indent, gap)))
  {
    assert members[i..][1..] == members[i + 1..];
    BeforeBefore(parts, LineOf(members[i], indent, gap), Lines(members[i + 1..], indent, gap));
  }

  class Printer {
    var gap: Text
    var indent: Text

    constructor ()
      ensures gap == [] && indent == []
    {
      gap, indent := [], [];
    }

    /** None where the source throws, which leaves the gap as wide as it was there. */
    method Stringify(value: Json, space: Space) returns (text: Option<Text>)
      requires Ordinary(value)
      modifies this
      ensures text == Stringified(value, IndentOf(space), [])
      ensures indent == IndentOf(space) && (text.Some? ==> gap == [])
    {
      gap, indent := [], [];
      if space.Width? {
        var i := 0;
        while i < space.n
          invariant 0 <= i && (i <= space.n || i == 0) && indent == Blanks(i) && gap == []
        {
          indent := indent + [SPACE];
          i := i + 1;
        }
      } else if space.Filler? {
        indent := space.s;
      }
      text := Str(value);
    }

    /** Each level widens `gap` for its own parts and puts it back before it returns. */
    method Str(value: Json) returns (text: Option<Text>)
      requires Ordinary(value)
      modifies this`gap
      ensures text == Stringified(value, indent, old(gap)) && (text.Some? ==> gap == old(gap))
      decreases value, 0
    {
      var mind := gap;
      match value
      case Str(s) => return Some(Quote(s));
      case Bool(b) => return Some(if b then TRUE_TEXT else FALSE_TEXT);
      case Null => return Some(NULL_TEXT);
      case Num(n) => return Some(PrintNumber(n));
      case Arr(items) =>
        gap := gap + indent;
        TextsExactly(items, indent, gap);
        var partial := Elements(items);
        if partial.None? {
          return None;
        }
        text := Some(Bracketed(LEFT_BRACKET, partial.value, RIGHT_BRACKET, gap, mind));
        gap := mind;
      case Obj(o) =>
        if Disguised(o) {
          return None; // its `isFinite` is not a function
        }
        var number := ShownNumber(o);
        if number.Some? {
          return Some(PrintNumber(number.value)); // by the methods it inherits
        }
        gap := gap + indent;
        LinesExactly(o.members, indent, gap);
        var partial := Members(o.members);
        if partial.None? {
          return None;
        }
        text := Some(Bracketed(LEFT_BRACE, partial.value, RIGHT_BRACE, gap, mind));
        gap := mind;
    }

    method Elements(items: seq<Json>) returns (partial: Option<seq<Text>>)
      requires forall i :: 0 <= i < |items| ==> Ordinary(items[i])
      modifies this`gap
      ensures partial == Texts(items, indent, old(gap)) && (partial.Some? ==> gap == old(gap))
      decreases items, 1
    {
      var parts: seq<Text> := [];
      var i := 0;
      assert items[i..] == items;
      NothingBefore(Texts(items, indent, gap));
      while i < |items|
        invariant 0 <= i <= |items| && gap == old(gap)
        invariant Before(parts, Texts(items[i..], indent, gap)) == Texts(items, indent, gap)
      {
        var v := Str(items[i]);
        OneMoreText(items, i, indent, gap, parts);
        if v.None? {
          return None;
        }
        parts := parts + [if v.value == [] then NULL_TEXT else v.value];
        i := i + 1;
      }
      assert items[i..] == [] && parts + [] == parts;
      return Some(parts);
    }

    method Members(members: seq<Member>) returns (partial: Option<seq<Text>>)
      requires forall i :: 0 <= i < |members| ==> Ordinary(members[i].value)
      modifies this`gap
      ensures partial == Lines(members, indent, old(gap)) && (partial.Some? ==> gap == old(gap))
      decreases members, 1
    {
      var parts: seq<Text> := [];
      var i := 0;
      assert members[i..] == members;
      NothingBefore(Lines(members, indent, gap));
      while i < |members|
        invariant 0 <= i <= |members| && gap == old(gap)
        invariant Before(parts, Lines(members[i..], indent, gap)) == Lines(members, indent, gap)
      {
        var line := Line(members[i]);
        OneMoreLine(members, i, indent, gap, parts);
        if line.None? {
          return None;
        }
        parts := parts + [line.value];
        i := i + 1;
      }
      assert members[i..] == [] && parts + [] == parts;
      return Some(parts);
    }

    /** One member; its value's text is never empty, so that it is never left out. */
    method Line(m: Member) returns (line: Option<Text>)
      requires Ordinary(m.value)
      modifies this`gap
      ensures line == if Printable(m.value) then Some(LineOf(m, indent, old(gap))) else None
      ensures line.Some? ==> gap == old(gap)
      decreases m, 1
    {
      var v := Str(m.value);
      if v.None? {
        return None;
      }
      assert v.value != [];
      return Some(MemberText(m.key, v.value, gap));
    }
  }
}
