/** The two operations of the library, one after the other, on its own printer and parser. */
module JsonBigNumber {
  import opened Options
  import opened CodeUnits
  import opened JsonValues
  import opened JsonSyntax
  import JsonPrinting
  import opened JsonPrinter
  import JsonReading
  import JsonParser
  import JsonRoundTrip

  /** The space arguments whose indent is whitespace: none, any number of spaces, or a blank text. */
  ghost predicate BlankSpace(space: Space) {
    space.Filler? ==> Blank(space.s)
  }

  lemma {:induction false} BlanksAreStrict(n: int)
    ensures StrictBlank(Blanks(n)) && |Blanks(n)| == (if n > 0 then n else 0)
    ensures forall i :: 0 <= i < |Blanks(n)| ==> Blanks(n)[i] == 0x20
  {
    if n > 0 { BlanksAreStrict(n - 1); }
  }

  /** Without a space argument and with a number for one, what is written is in the standard's grammar. */
  lemma StringifiesToStandardText(v: Json, space: Space)
    requires JsonPrinting.Ordinary(v) && (space.Filler? ==> StrictBlank(space.s))
    ensures var t := JsonPrinting.TreeOf(v, IndentOf(space), []);
            var text := JsonPrinting.Stringified(v, IndentOf(space), []);
            StrictTree(t) && (text.Some? ==> text.value == TreeTo(t, []))
  {
    if space.Width? { BlanksAreStrict(space.n); }
    JsonRoundTrip.TreeIsStrict(v, IndentOf(space), []);
    JsonRoundTrip.WholeText(v, IndentOf(space));
  }

  /**
   Stringify, then parse, unless stringify throws: the value comes back exactly when it is plain, whatever
   the blank indent.
   */
  method StringifyThenParse(v: Json, space: Space) returns (text: Option<Text>, back: Option<Result<Json>>)
    requires JsonPrinting.Ordinary(v) && BlankSpace(space)
    ensures text == JsonPrinting.Stringified(v, IndentOf(space), [])
    ensures back == if text.Some? then Some(Success(JsonPrinting.Kept(v))) else None
    ensures back == Some(Success(v)) <==> JsonPrinting.Plain(v)
  {
    var printer := new Printer();
    text := printer.Stringify(v, space);
    back := None;
    if space.Width? { BlanksAreStrict(space.n); }
    JsonRoundTrip.RoundTrip(v, IndentOf(space));
    if text.Some? {
      var parser := new JsonParser.Parser();
      var result := parser.Parse(text.value);
      back := Some(result);
      JsonRoundTrip.ParsePrinted(v, IndentOf(space));
    }
  }
}
