# What the trading code keeps, and where it does not

A Dafny model of the parts of a cryptocurrency trading repository whose correctness is hard to see from
the code, with proofs of what they keep over every input and every run. `dafny verify dfyconfig.toml`
checks everything.

## What is modelled

**JSON with big decimals.** `CodeUnits` and `BigNumbers` hold JavaScript strings as 16-bit code units and
BigNumber as an exact decimal with its text form. `JsonSyntax` gives the grammar as concrete syntax trees,
`JsonReading` the parser with its tables as functions from unread text, and `JsonPrinting` the printer as a function.
`JsonParser` and `JsonPrinter` are the two objects with their cursor, gap and indent, proved to compute
those functions. `JsonGrammar` shows that the parser accepts exactly its grammar, `JsonStandard` that it
accepts RFC 8259 with the right values, and `JsonRoundTrip` and `JsonBigNumber` that printing and parsing
undo each other.

**The edge70 backtest.** `CashManagement` is the bank, `SpotPositions` the ledger of filled orders,
`Backtest` the engine that turns signals and stops into orders, and `MegaBacktester` the loop over all
symbols. `CandleWindow`, `Signals` and `Edge70` are the candle windows, the breakout signals with their
expiring direction key, and the objects around them, the initialiser included.

**The edge58 backtest.** `Edge58` has the position tracker, the event log and the analyser that replays it.

**Smaller pieces.** `Chunking` is chunked candle fetching, `StepRounding` decimal step rounding through
text, `SpotPortfolio` portfolio valuation, `PositionSizer` risk-based sizing, and `Reconciliation` the
comparison of holdings with positions. `Rounding` holds the BigNumber arithmetic all of them share,
`Doubles` the conversion to a JavaScript number, and `Options`, `Directions` and `Sequences` what several modules use.

Each class is proved against functions on values, named in its contracts; the theorems are about those
functions and about whole runs of them.

## What turned out false

The code departs from what it promises in these places. The lemma named gives the exact condition, and
the second one, where there is one, an input that fails.

- Chunked fetching repeats every candle that opens where two requests meet (`Chunking.NoDuplicates`,
  `Chunking.DuplicateAtMidnight`).
- Step rounding rounds up, above the quantity, within half a 1e-16 unit of the next step, and does not
  round at all a quantity so near an integer that its double is one (`StepRounding.RoundsDownExactly`,
  `StepRounding.RoundsUp`, `StepRounding.ComesBackUncut`).
- The base amount of a sized order can cost more than its quote volume when the quotient rounds up to the
  next 8-place unit (`PositionSizer.BaseFitsExactly`, `PositionSizer.BaseCostsMore`).
- Valuing the same portfolio object twice in one currency gives a different total
  (`SpotPortfolio.TotallingTwice`, `SpotPortfolio.SecondTotalIsNothing`); the text summary of a portfolio
  does value its object twice.
- An order delivered again as a different text counts again, under the same id
  (`SpotPositions.IdsSufficeExactly`, `SpotPositions.ChangedRedelivery`).
- An opening buy without an execution price, delivered again just as it was, never opens a position
  (`SpotPositions.UnpricedOpeningWaits`).
- A closed event states only the last sell against the opening buy (`SpotPositions.ClosingReportsItsEnds`,
  `SpotPositions.ClosingMisreports`).
- The edge58 analyser reports what a short loses as a profit (`Edge58.ShortsAreMisreported`,
  `Edge58.ShortStoppedOut`).
- The first breakout over an unset or lapsed direction is published in the backtest and not live
  (`Signals.StoresAgreeExactly`, `Signals.FirstBreakout`); otherwise the two agree
  (`Signals.StoresDifferOnlyFirst`).
- The round trip through JSON turns infinite numbers to null and loses `__proto__` members and changed
  prototypes; the parser makes such objects itself, one of which prints as a number, and one on which the
  printer throws (`JsonRoundTrip.RoundTrip`, `JsonRoundTrip.ReparsePrinted`,
  `JsonRoundTrip.NumberForPrototype`, `JsonRoundTrip.FakeNumber`).
- `__proto__` is a repeated name or not depending on what it was given before
  (`JsonStandard.FreeInTurnExactly`, `JsonStandard.NullPrototypes`).

## How the source is read

- Amounts are exact decimals, modelled as reals. `dividedBy` rounds half away from zero at 20 places,
  `toFixed(8)` and `dp(8)` at 8, and `dp(8, ROUND_DOWN)` truncates. The sign of zero is kept only in JSON.
- `toNumber` is the nearest IEEE 754 double, ties to the even significand, as `Doubles` computes it.
- The number text follows version 8.1 of bignumber.js: exponential form at exponents up to -7 and from 21,
  and infinity above an exponent of ten million. Only decimal number text is modelled, which is all the
  parser collects.
- A JSON object is its prototype and the list of its own members with distinct keys. JavaScript moves
  integer-like keys to the front, so objects are to be compared as maps. Assigning `__proto__` sets the
  prototype where the object inherits the setter, and adds a member where it does not.
- The number, string and object functions of the parser and the member loop of the printer are split into
  several methods each.
- The library's debug flag, which other modules of the repository set for the whole process, is off: with it
  the number text `-` makes the library throw its own error in place of the parser's "Bad number".
- The position store keeps a set of whole orders, compared as their JSON texts: two that differ in any
  top-level field, be it in how a number is written, are different. Inside a nested object only fields named
  like a top-level one are written, so that of the exchange identifier only the version counts; orders that
  differ in its other fields are one order. The field `rest` stands for all that is written and the model
  does not name, and `exchange` is the same for all orders of a position. Sizes and prices are kept to 8 places, which the amounts of the exchange have.
- Initialising a position keeps the orders already recorded, deleting it erases record and orders, and
  being in a position means a size above zero.
- The backtester's order ids, texts made of symbol, side and time, are those three values.
- What the position sizer asks for is any function of the engine's state that is never negative while the
  bank is solvent; the fixed and the all-in sizer are two of them. Prices are positive.
- The two stores of the direction report an unset key differently, as null and undefined, and are kept
  apart. Their keys are base assets, and those of the main loop's symbols differ, letter case aside. Time is
  explicit: a candle visits the store twice, and each visit has its instant.
- The assertion on `stops[symbol]` in the buy only prints and has no effect.
- In the main loop the signal generators of the symbols are values, and their candles are read by symbol in
  a fixed order; in `Edge70` the same generator is an object.
- Callbacks and messages are appended to logs. Asynchronous calls run one after another.
- The edge58 signals are parameters, each with the candle it comes with; tracker and analyser use the same
  fixed amount.
- The bank's loan is asked for only a positive amount, as its one caller does. Windows have a length of at
  least one candle.
- Chunking takes time as integer milliseconds in one time zone without clock changes, on daily candles at
  least a day apart. The exchange's limit is 500 candles a request.
- Where the documentation of the chunking asks for no duplicates, the code repeats some, and the code is
  what is modelled.

## Model

| member | source | states |
|---|---|---|
| JsonStandard.AcceptsTheStandard | classes/exchanges/ftx/JSONBigNumber.js:440-680 | a text of the RFC 8259 grammar (sections 2 to 7), with blanks around it, is accepted exactly when the names in each object are apart and every number is in range, and the result is then the value the text stands for; grammar, text and value are given by character codes, the eight escape letters and the hexadecimal digits of either case included, and not by the parser's tables |
| JsonStandard.DenotesItsMeaning | classes/exchanges/ftx/JSONBigNumber.js:576-637 | a grammar tree has a value exactly when no object in it repeats a name that is a member already and no number is out of range, at every nesting depth |
| JsonStandard.EntriesDenoteTheirMeaning | classes/exchanges/ftx/JSONBigNumber.js:605-637 | an object has a value exactly when its values have and each name is free when it is its turn, and is then what one assignment for each name gives, `__proto__` setting the prototype while the object inherits the setter |
| JsonStandard.FreeInTurnExactly | classes/exchanges/ftx/JSONBigNumber.js:605-637 | each name is free in its turn exactly when no name is used twice but `__proto__`, and that only until a value without the setter was given to it |
| JsonStandard.OrdinaryNames | classes/exchanges/ftx/JSONBigNumber.js:605-637 | without `__proto__` this is that all names differ, and the members are those written, in order |
| JsonStandard.NullPrototypes | classes/exchanges/ftx/JSONBigNumber.js:605-637 | `__proto__` given as null once leaves no member, twice leaves one, and a third time is refused as a repeated name |
| JsonGrammar.AcceptsGrammar | classes/exchanges/ftx/JSONBigNumber.js:440-680 | every document of the wider grammar this parser takes (lenient blanks, control characters in strings, broken `\u` escapes, leading zeros) gives the value or the first error its tree denotes |
| JsonGrammar.ParsesExactlyTheGrammar | classes/exchanges/ftx/JSONBigNumber.js:440-680 | parsing a text succeeds with a value if and only if the text is a document denoting that value; so on success only blanks were left |
| JsonGrammar.SoundValue | classes/exchanges/ftx/JSONBigNumber.js:639-659 | whatever is read as a value is the text of a tree that denotes it, with exactly the rest left unread |
| JsonGrammar.ReadTree | classes/exchanges/ftx/JSONBigNumber.js:639-659 | reading stops exactly where the text of a tree ends, whatever follows that cannot continue it |
| JsonRoundTrip.ParsePrinted | classes/exchanges/ftx/JSONBigNumber.js:187-409 | for any nesting and any blank indent, whatever the printer does not throw on is parsed back as the value with infinite numbers turned to null, objects printed as the number they inherit from turned to that number, and other objects assembled anew from their own members |
| JsonRoundTrip.RoundTrip | classes/exchanges/ftx/JSONBigNumber.js:187-409 | the value is printed and comes back if and only if it holds no infinite number, no prototype but the standard one, no member named `__proto__` and no object taken for a number |
| JsonRoundTrip.PrintsStandardText | classes/exchanges/ftx/JSONBigNumber.js:206-359 | what is printed with an indent of standard blanks is a text of the RFC 8259 grammar, laid out with each part on a line of its own behind the indents of its depth and a space after each colon, or without any blank if there is no indent |
| JsonRoundTrip.ReparsePrinted | classes/exchanges/ftx/JSONBigNumber.js:367-680 | a value the parser returned survives printing and parsing again, at any blank indent, if and only if it is plain in that sense |
| JsonRoundTrip.TextsThatAvoidSurvive | classes/exchanges/ftx/JSONBigNumber.js:367-680 | the value of every accepted text in which no name is `__proto__` or `_isBigNumber` survives |
| JsonRoundTrip.NumberForPrototype | classes/exchanges/ftx/JSONBigNumber.js:605-637 | the object read from `__proto__` and any number is printed as that number |
| JsonRoundTrip.ReadsPrototype | classes/exchanges/ftx/JSONBigNumber.js:605-637 | a value read under `__proto__` becomes the prototype, null takes it away, and texts and booleans are dropped |
| JsonRoundTrip.InheritsSetter | classes/exchanges/ftx/JSONBigNumber.js:605-637 | an object without a prototype, or one that has a member `__proto__`, does not pass the setter on, and `__proto__` is then a member |
| JsonRoundTrip.FakeNumber | classes/exchanges/ftx/JSONBigNumber.js:217-221 | the object read from `_isBigNumber` and true makes the printer throw |
| JsonRoundTrip.HiddenMethods | classes/exchanges/ftx/JSONBigNumber.js:217-230 | an own `isFinite` on an object that inherits from a number makes the printer throw, and an own `toJSON` makes it print the object and not the number |
| JsonRoundTrip.QuoteWritten | classes/exchanges/ftx/JSONBigNumber.js:187-203 | a quoted string is the text of standard string items that stand for the original characters: a letter escape where there is one, four lower-case digits for the other unsafe characters, and the character itself for the rest |
| JsonRoundTrip.FourDigits | classes/exchanges/ftx/JSONBigNumber.js:187-203 | padding a character's hexadecimal text with zeros and cutting it gives its four digits |
| JsonBigNumber.StringifyThenParse | classes/exchanges/ftx/JSONBigNumber.js:367-680 | running the printer object and then, unless it throws, the parser object gives the value back exactly when it is plain, for no space, any width and any blank filler |
| JsonBigNumber.StringifiesToStandardText | classes/exchanges/ftx/JSONBigNumber.js:367-409 | the indents made from the space argument keep the text inside the standard's grammar |
| JsonBigNumber.BlanksAreStrict | classes/exchanges/ftx/JSONBigNumber.js:367-385 | a width gives as many spaces, and none if it is negative |
| JsonPrinting.KeptExactlyPlain | classes/exchanges/ftx/JSONBigNumber.js:211-219 | a value that can be printed is kept unchanged exactly when it is plain |
| BigNumbers.TextRoundTrip | classes/exchanges/ftx/JSONBigNumber.js:219-231 | the text of a finite number is read back as the same number, sign of zero included |
| BigNumbers.ScanWritten | classes/exchanges/ftx/JSONBigNumber.js:460-488 | the digit, fraction and exponent loops take up exactly the written number when what follows cannot continue it |
| BigNumbers.ConstructValue | classes/exchanges/ftx/JSONBigNumber.js:489-494 | the number built from a text is the exact decimal its characters stand for, infinite exactly above the exponent range and zero below it |
| BigNumbers.PartsValue | classes/exchanges/ftx/JSONBigNumber.js:460-494 | the digits and the exponent the constructor goes by are those the number text stands for, character code by character code |
| BigNumbers.TextPartsStrict | classes/exchanges/ftx/JSONBigNumber.js:219-243 | number texts are numbers of the standard: no superfluous zero and no empty digit run |
| JsonParser.Parser.Next | classes/exchanges/ftx/JSONBigNumber.js:440-454 | the cursor moves over one unread character, and past the end stays at no character |
| JsonParser.Parser.Expect | classes/exchanges/ftx/JSONBigNumber.js:440-447 | the named character is stepped over, or the error says which was expected and found |
| JsonParser.Parser.NumberCharacters | classes/exchanges/ftx/JSONBigNumber.js:460-488 | collects the characters of the longest number text at the cursor |
| JsonParser.Parser.Number | classes/exchanges/ftx/JSONBigNumber.js:456-495 | leaves the cursor behind the number scanned and returns it, or fails for text that is no finite number |
| JsonParser.Parser.HexEscape | classes/exchanges/ftx/JSONBigNumber.js:517-525 | up to four hexadecimal digits; a character that is not one ends the run and is lost |
| JsonParser.Parser.Escaped | classes/exchanges/ftx/JSONBigNumber.js:514-530 | one escape adds the character it stands for, and any other letter gives the string up |
| JsonParser.Parser.ReadQuoted | classes/exchanges/ftx/JSONBigNumber.js:497-537 | reads a string as the reading function does, failing at the end of the text or at a bad escape |
| JsonParser.Parser.White | classes/exchanges/ftx/JSONBigNumber.js:539-546 | skips every character up to the space |
| JsonParser.Parser.Word | classes/exchanges/ftx/JSONBigNumber.js:548-574 | reads true, false and null letter by letter, with the error at the first letter that differs |
| JsonParser.Parser.Array | classes/exchanges/ftx/JSONBigNumber.js:578-603 | the element loop computes the recursive reading of an array, errors included, on less text each turn |
| JsonParser.Parser.Object | classes/exchanges/ftx/JSONBigNumber.js:605-637 | the member loop computes the recursive reading of an object, prototype changes included, with the error for a repeated name before its value is read |
| JsonParser.Parser.Value | classes/exchanges/ftx/JSONBigNumber.js:639-659 | the five functions call each other on less and less unread text and compute the reading function |
| JsonParser.Parser.Parse | classes/exchanges/ftx/JSONBigNumber.js:664-703 | on every text the parser ends, with a value or an error, and with the one the grammar determines |
| JsonPrinter.Printer.Str | classes/exchanges/ftx/JSONBigNumber.js:206-359 | restores the gap it widened, and returns the text of the value at that gap, or throws on an object taken for a number |
| JsonPrinter.Printer.Elements | classes/exchanges/ftx/JSONBigNumber.js:285-303 | one text for each element, printed at the widened gap, unless one throws |
| JsonPrinter.Printer.Members | classes/exchanges/ftx/JSONBigNumber.js:324-338 | one `name: value` text for each own member, in order, unless one throws |
| JsonPrinter.Printer.Line | classes/exchanges/ftx/JSONBigNumber.js:324-338 | the name, colon and text of one member, never left out as the text is never empty |
| JsonPrinter.Printer.Stringify | classes/exchanges/ftx/JSONBigNumber.js:367-409 | builds the indent from the space argument and prints from an empty gap, whatever an earlier call left behind, even one that threw |
| CashManagement.WithdrawalSize | backtesting/edge70/cash-management.ts:35-72 | a withdrawal is the request or all that cash and facility reach (one dollar more after a top-up), never more than asked, and positive for every positive request when dollar loans are on |
| CashManagement.WithdrawalBalances | backtesting/edge70/cash-management.ts:35-72 | one withdrawal moves cash and loan by what was lent and taken, and loan plus facility only by the top-up |
| CashManagement.BooksBalance | backtesting/edge70/cash-management.ts:35-76 | over any run of withdrawals and deposits cash = start + loan + paid in - withdrawn, loan + facility = initial facility + number of top-ups, and neither cash nor facility is ever negative |
| CashManagement.LendsTheShortfall | backtesting/edge70/cash-management.ts:35-72 | the whole bank after a withdrawal: the loan grows by what cash was short by, as far as the facility or its one-dollar top-up reaches, and cash is then empty |
| CashManagement.LoanIsShortfalls | backtesting/edge70/cash-management.ts:35-76 | over any run the loan is what its withdrawals were short by, added up |
| CashManagement.BorrowsLast | backtesting/edge70/cash-management.ts:35-76 | anywhere in a run the loan only grows in a withdrawal above the cash, and leaves no cash |
| CashManagement.BacktesterCashManagement.TakeLoan | backtesting/edge70/cash-management.ts:35-60 | the loan recursion ends after at most one top-up and never throws |
| CashManagement.BacktesterCashManagement.WithdrawCash | backtesting/edge70/cash-management.ts:62-72 | returns and books the withdrawal the bank's function describes |
| CashManagement.BacktesterCashManagement.PayInCash | backtesting/edge70/cash-management.ts:74-76 | adds to the cash and nothing else |
| SpotPositions.SizeIsNetOfDistinctOrders | services/amqp/binance-order-data/position-tracker/position-tracker.ts:101-216 | for any sequence of filled orders with repeats and any close check, a live position's size is its opening buy plus later buys minus later sells over distinct orders since some delivery opened it, and its record is the orders before and since |
| SpotPositions.IdsSufficeExactly | classes/spot/persistence/redis-implementation/low-level/redis-spot-positions-state-v3.ts:167-178 | the size is the net over distinct order ids after every delivery if and only if no order of some amount differs from an earlier one with its id |
| SpotPositions.ChangedRedelivery | classes/spot/persistence/redis-implementation/low-level/redis-spot-positions-state-v3.ts:167-178 | a buy of 1 delivered twice, changed the second time, makes a position of 2, where its id counts for 1 |
| SpotPositions.StoreKeepsPositionsApart | services/amqp/binance-order-data/position-tracker/position-tracker.ts:101-216 | after any mixture of deliveries the store holds for each position what the orders routed to it fold to, and the size of every live one is the net of its distinct orders since it opened |
| SpotPositions.BuyExactly | services/amqp/binance-order-data/position-tracker/position-tracker.ts:101-130 | what a buy does to its position in every case, and that it is announced, with the position as it then is, exactly when it has a price, and otherwise throws |
| SpotPositions.SellExactly | services/amqp/binance-order-data/position-tracker/position-tracker.ts:156-216 | what a sell does to its position in every case, when it closes it, and everything its report says |
| SpotPositions.RecordedOnce | classes/spot/persistence/redis-implementation/low-level/redis-spot-positions-state-v3.ts:167-178 | a batch of orders is added to the record as to a set: what was there stays in place, and each other order is there once |
| SpotPositions.Redelivery | services/amqp/binance-order-data/position-tracker/position-tracker.ts:101-216 | delivering again an order a live position holds leaves the position as it was, unless the close check finds the unchanged size too small |
| SpotPositions.RedeliveryByVolume | backtesting/edge70/portfolio-tracking/positions-tracker.ts:27-39 | with the volume-only check delivering again an order on record of a live position leaves the whole store unchanged and closes nothing |
| SpotPositions.UnpricedOpeningWaits | classes/spot/abstractions/spot-position.ts:113-149 | an opening buy without execution price fails with the order on record; a later buy then opens the position if and only if it has a price and is not on record word for word |
| SpotPositions.ClosingReportsItsEnds | classes/spot/abstractions/spot-position.ts:199-229 | whatever the close check, the change a closed event states is the last sell against the opening buy, and is what the position made exactly when the distinct orders between the two net to nothing, or to the sell where it came before |
| SpotPositions.ClosingMisreports | classes/spot/abstractions/spot-position.ts:199-229 | two buys of 100 and a sell of both for 210 are reported as a change of 110, where 10 was made |
| SpotPositions.FullSell | services/amqp/binance-order-data/position-tracker/position-tracker.ts:156-216 | a new, priced sell of everything held closes the position and reports it |
| SpotPositions.SpotPosition.AddOrderToPosition | classes/spot/abstractions/spot-position.ts:112-149 | records, opens or adjusts once per distinct order, and refuses an order on another asset with the store untouched |
| SpotPositions.SpotPositionsPersistence.AddOrders | classes/spot/persistence/redis-implementation/low-level/redis-spot-positions-state-v3.ts:167-178 | records the orders of a list that are not on record yet and counts them |
| SpotPositions.SpotPositionTracker.BuyOrderFilled | services/amqp/binance-order-data/position-tracker/position-tracker.ts:101-154 | the store and the event log after a buy, for the position its recorded context names |
| SpotPositions.SpotPositionTracker.SellOrderFilled | services/amqp/binance-order-data/position-tracker/position-tracker.ts:156-216 | the store and the event log after a sell: ignored on an unknown position, closed and erased when too small to trade |
| Backtest.RunIsSafe | backtesting/edge70/portfolio-tracking/lib/backtest-trade-execution.ts:72-208 | in every reachable state a held position has a stop, the bank is solvent, and the next candle does not throw |
| Backtest.RunActs | backtesting/edge70/portfolio-tracking/lib/backtest-trade-execution.ts:72-208 | every event of every run acts by these rules: a candle sells exactly what is held, at its stop, when its low is at or under the stop; a short signal sells exactly what is held, at its price; a long one buys when nothing is held, for what the sizer asks as far as bank and facility reach; and nothing else happens |
| Backtest.StopsFollowEntries | backtesting/edge70/portfolio-tracking/lib/backtest-trade-execution.ts:72-82 | in every reachable state the stop of what is held is its entry price times the stop factor, a whole number of 1e-8 units at most half a unit away, halves going away from zero |
| Rounding.RoundsTo8 | backtesting/edge70/portfolio-tracking/lib/backtest-trade-execution.ts:72-82 | rounding to 8 places gives a whole number of units at most half a unit away, halves going away from zero |
| Rounding.DividesTo20 | backtesting/edge70/portfolio-tracking/lib/backtest-trade-execution.ts:84-137 | division gives the quotient at 20 places in the same way |
| Rounding.CutsTo8 | lib/utils.ts:6-18 | rounding down to 8 places gives the largest whole number of units not above |
| Backtest.BacktestNeverThrows | backtesting/edge70/portfolio-tracking/lib/backtest-trade-execution.ts:179-208 | from a fresh start no stop check of any run throws: a stop is never missing, and nothing is left after a stop |
| Backtest.SellCloses | backtesting/edge70/portfolio-tracking/lib/backtest-trade-execution.ts:139-177 | a sell of the whole size closes the position, erases its record and pays the quote in |
| Backtest.BuyOpens | backtesting/edge70/portfolio-tracking/lib/backtest-trade-execution.ts:84-137 | what a buy leaves: the bank short by what it got, a stop, and a position of the rounded amount; only the bank changed when nothing could be withdrawn; and a record that holds the very order unchanged |
| Backtest.RunConserves | backtesting/edge70/portfolio-tracking/lib/backtest-trade-execution.ts:84-208 | over any run cash - loan + open size x entry changes by the profit of the closed positions, within entry x (0.5e-8 + 0.5e-20) per buy and 0.5e-8 per sell |
| Backtest.BacktestConserves | backtesting/edge70/portfolio-tracking/lib/backtest-trade-execution.ts:84-208 | the same from a fresh start, for any signals and candles and any sizer |
| Backtest.RepeatedBuyIsWithinRounding | backtesting/edge70/portfolio-tracking/lib/backtest-trade-execution.ts:84-137 | a buy that is on record word for word opens nothing and loses what it withdrew, which is no more than its rounding |
| Backtest.SizersAreGood | backtesting/edge70/position_sizers/all-in.ts:26-43 | the all-in sizer and the fixed one never ask for less than nothing |
| Backtest.AllInSpendsTheCash | backtesting/edge70/position_sizers/all-in.ts:26-43 | a long signal sized all-in takes all the cash, borrows nothing and leaves loan and facility as they were |
| Backtest.BacktestTradeExecution.PlaceStop | backtesting/edge70/portfolio-tracking/lib/backtest-trade-execution.ts:72-82 | the stop is the price times the factor at 8 places |
| Backtest.BacktestTradeExecution.ExecuteBuyWithStop | backtesting/edge70/portfolio-tracking/lib/backtest-trade-execution.ts:84-137 | the whole engine state after a buy |
| Backtest.BacktestTradeExecution.Sell | backtesting/edge70/portfolio-tracking/lib/backtest-trade-execution.ts:139-177 | the whole engine state after a sell |
| Backtest.BacktestTradeExecution.IngestNewCandle | backtesting/edge70/portfolio-tracking/lib/backtest-trade-execution.ts:179-208 | the stop check computes its step function and keeps the invariant |
| Backtest.BacktestTradeExecution.PublishSignal | backtesting/edge70/portfolio-tracking/lib/edge-signals-to-trade-execution.ts:38-73 | long opens only without a position and then sets the stop, short sells all of one, and the invariant is kept |
| CandleWindow.WindowOfPushed | services/edge70-signals/limited-length-candles-history.ts:17-49 | after any pushes the window is the last candles, as many as its length, of what it started from followed by what was pushed |
| CandleWindow.LimitedLengthCandlesHistory.Push | services/edge70-signals/limited-length-candles-history.ts:17-49 | drops the oldest candle of a full window and appends |
| CandleWindow.LimitedLengthCandlesHistory.GetHighestValue | services/edge70-signals/limited-length-candles-history.ts:51-67 | the highest high, at the earliest candle that has it; fails only when empty |
| CandleWindow.LimitedLengthCandlesHistory.GetLowestValue | services/edge70-signals/limited-length-candles-history.ts:69-85 | the lowest low, at the earliest candle that has it; fails only when empty |
| Signals.PublishesReversals | services/edge70-signals/signals.ts:178-342 | a candle publishes exactly when it breaks one full window against a direction the store knows, or against the backtest store's unset one |
| Signals.SignalsAlternate | services/edge70-signals/signals.ts:178-342 | over any candle stream a published signal differs from whatever was said before it, signal or message |
| Signals.AgreeOnlyAcrossLapse | services/edge70-signals/signals.ts:178-342 | two signals in a row agree only across a lapse: a candle after the one that published the first and before the one that published the second found the key lapsed |
| Signals.MessageMeansLapse | services/edge70-signals/signals.ts:215-275 | every message but the first of a stream comes of a candle that found the key lapsed |
| Signals.BacktestOnlyPublishes | backtesting/edge70/direction-persistance-mock.ts:33-47 | under the backtest's store every emission is a signal and they strictly alternate |
| Signals.StoresAgreeExactly | backtesting/edge70/direction-persistance-mock.ts:33-47 | from the same key a candle emits the same live and in the backtest if and only if it breaks both windows, or the key is live as it is written, or it breaks neither and the key was not live |
| Signals.StoresDifferOnlyFirst | backtesting/edge70/direction-persistance-mock.ts:33-47 | over any stream in which the key never lapses both keep the same windows and direction, and the logs differ only in the first emission over an unset key, published in the backtest and only reported live |
| Signals.FirstBreakout | backtesting/edge70/direction-persistance-mock.ts:33-47 | a rise above windows of one candle over an unset key is a message live and a signal in the backtest |
| Signals.StoredIsLastBreakout | services/edge70-signals/signals.ts:215-275 | from any starting key, a live stored direction is that of the latest candle that broke exactly one window, or the starting one if none did, with no lapse since |
| Signals.LastBreakoutIsStored | services/edge70-signals/signals.ts:215-275 | conversely that direction is what the key holds unless it was found lapsed since |
| Signals.BacktestStoresLastBreakout | backtesting/edge70/direction-persistance-mock.ts:33-47 | the backtest's store always holds the direction of the latest one-sided breakout, or the starting one |
| Signals.LapseNeedsSilence | services/edge70-signals/market-direction-persistance.ts:30-54 | after a candle that is not two-sided leaves the key live, it stays live and unchanged for 25 hours, whatever two-sided candles follow, and then it is gone |
| Signals.WindowsAfter | services/edge70-signals/signals.ts:335-339 | after any stream both windows are the last candles of the whole history |
| Signals.PreloadedSeesTheSame | services/edge70-signals/market-direction-initialiser.ts:109-124 | an edge preloaded with a history and one fed it have equal windows and see the same breakouts on every later candle |
| Signals.BreaksExactly | services/edge70-signals/signals.ts:120-176 | for an edge started from any history and fed any stream a candle breaks to the long side exactly when there were at least as many candles as the window holds and its high is above each of the last so many, and to the short side likewise with lows |
| Signals.AnswersExactly | services/edge70-signals/signals.ts:178-342 | what every candle of every stream publishes, reports and stores, told by the candles before it and the stored key: its own direction if it breaks one side, the stored one if it breaks none, with the price and time of the signal and an expiry 25 hours on |
| Edge70.DirectionPersistence.SetDirection | services/edge70-signals/market-direction-persistance.ts:30-45 | returns the live direction and renews the expiry on every write |
| Edge70.Edge70Signals.CheckForLongSignal | services/edge70-signals/signals.ts:120-147 | true exactly when the window is full and the high is above every high in it |
| Edge70.Edge70Signals.CheckForShortSignal | services/edge70-signals/signals.ts:149-176 | true exactly when the window is full and the low is below every low in it |
| Edge70.Edge70Signals.IngestNewCandle | services/edge70-signals/signals.ts:178-342 | stored direction, emissions and both windows after one candle; the candle is pushed on every path |
| Edge70.MarketDirectionInitialiser.Run | services/edge70-signals/market-direction-initialiser.ts:55-125 | replays the closed candles through an empty edge, leaving in the store the direction they lead to |
| MegaBacktester.LoopIsSound | backtesting/edge70/edge70-mega-backtester.ts:414-455 | the events of any number of rounds meet the conditions of the engine's theorems, so the whole loop conserves money and never throws, with a fixed or an all-in sizer or any other |
| MegaBacktester.TraceShape | backtesting/edge70/edge70-mega-backtester.ts:414-455 | every event comes from a candle of its own symbol and round, and no two signals share symbol and time where no two candles of a symbol do |
| MegaBacktester.SymbolEventsExactly | backtesting/edge70/edge70-mega-backtester.ts:434-441 | a candle of a symbol brings its stop check, and then a signal exactly when it alone rises above, or falls below, the candles of that symbol before it and its direction is not the one stored |
| MegaBacktester.RoundInOrder | backtesting/edge70/edge70-mega-backtester.ts:427-441 | a round has the events of its symbols one after another, in their order |
| MegaBacktester.Edge70MegaBacktester.Turn | backtesting/edge70/edge70-mega-backtester.ts:434-441 | one symbol's candle is checked against its stop before its signal is acted on |
| MegaBacktester.Edge70MegaBacktester.TakeRound | backtesting/edge70/edge70-mega-backtester.ts:427-432 | shifts one candle off every symbol's list, or finds one exhausted |
| MegaBacktester.Edge70MegaBacktester.PlayRound | backtesting/edge70/edge70-mega-backtester.ts:434-441 | a round runs the events of its candles in symbol order |
| MegaBacktester.Edge70MegaBacktester.Play | backtesting/edge70/edge70-mega-backtester.ts:422-446 | the loop ends with the first exhausted symbol, has run exactly the events of the rounds before it, and keeps the engine's invariant |
| Edge58.ReplayRebuilds | backtesting/edge58/backtest.ts:116-193 | for any candles and signals the log is (Entry Increase* Exit)* with at most one unfinished trade, one direction a trade; its replay never throws, its open size is the tracker's, its capital is the fixed amount times the longest trade's entries, and its profit is what its formula gives for the sizes in the tracker's own exits |
| Edge58.LogFollows | backtesting/edge58/backtest.ts:420-445 | what each candle of a run adds to the log, by the log alone: an exit of all that was bought exactly when the candle reaches the stop of the open trade, from above for a long and from below for a short, at that stop; and then an increase or an entry exactly where filter and direction allow |
| Edge58.ShortsAreMisreported | backtesting/edge58/backtest.ts:116-193 | in every run, replaying the log reports what the trades made after every event if and only if each short that was closed broke even |
| Edge58.ShortLossCountsTwice | backtesting/edge58/backtest.ts:107-112 | the profit reported exceeds what the trades made, short ones by falling, by twice the loss of the short trades |
| Edge58.ShortStoppedOut | backtesting/edge58/backtest.ts:107-112 | a short of 300 at 100 stopped out at 110 loses 30 and is reported as a profit of 30 |
| Edge58.PositionTracker.StoppedOut | backtesting/edge58/backtest.ts:215-257 | logs the exit at the stop and empties the position, or throws with nothing changed |
| Edge58.PositionTracker.EnterOrAddToPosition | backtesting/edge58/backtest.ts:261-316 | enters, adds or ignores a signal by direction and the two filters |
| Edge58.PositionEventLogAnalyser.Run | backtesting/edge58/backtest.ts:138-193 | the replay loop computes the recursive replay, and throws exactly where it does |
| Edge58.Edge58Backtester.RunCandles | backtesting/edge58/backtest.ts:420-445 | stops are checked before the candle's signal, and the analyser run on the log agrees with the tracker |
| Chunking.ChunkingFindsAll | classes/candles/chunking-candles-collector.ts:26-71 | for any range with an explicit end the recursion ends, fails only for an empty range, asks for at most 490 days at a time in consecutive requests none of which is truncated, and returns the whole range's candles in order, those at a chunk boundary twice |
| Chunking.NoDuplicates | classes/candles/chunking-candles-collector.ts:21-24 | the documented wish of no duplicate and no missing candle holds if and only if no candle opens at a boundary |
| Chunking.DuplicateAtMidnight | classes/candles/chunking-candles-collector.ts:42-60 | any market with a candle opening on day 489 of a 500-day range gets it twice |
| StepRounding.RoundsDownExactly | lib/utils.ts:34-41 | for every quantity from 0 and power-of-ten step from 1 to 1e-16: a quantity whose double is an integer comes back as it is; for any other, printing, slicing and parsing give the largest multiple not above it or, within half a 1e-16 unit below the next multiple, that one; the result is the floor if and only if the quantity is a multiple already or clear of both |
| StepRounding.SixteenDecimalsRoundDown | lib/utils.ts:34-41 | quantities of at most 16 decimals never grow, and are rounded down unless their double is an integer |
| StepRounding.RoundsUp | lib/utils.ts:34-41 | a holding of 0.1 less 1e-20 becomes 0.1, more than is held, with a step of 0.1 |
| StepRounding.ComesBackUncut | lib/utils.ts:34-36 | 1.9999999999999999 has the double 2 and comes back as it is, whatever the step |
| StepRounding.NeverUpToAnInteger | lib/utils.ts:34-41 | what would be rounded up to an integer has that integer for its double and is handed back, so no quantity of ordinary size is ever rounded up to one |
| StepRounding.WholeStepsRoundDown | lib/utils.ts:34-41 | with a step of 1 nothing of ordinary size is rounded up |
| Doubles.WholeExactly | lib/utils.ts:34-36 | a number of ordinary size passes the integer test if and only if an integer lies within half the spacing of the doubles around it |
| SpotPortfolio.TotalIsNearExact | classes/utils/spot-portfolio-utils.ts:157-227 | the total of a portfolio not yet valued is within n x (0.5e-8 + 0.5e-20) of the exact value |
| SpotPortfolio.UnprocessedExactly | classes/utils/spot-portfolio-utils.ts:28-53 | the unprocessed assets are exactly those held, other than the quote currency, with neither pair priced |
| SpotPortfolio.DecoratesExactly | classes/utils/spot-portfolio-utils.ts:157-201 | decorating a balance writes its value in the quote currency at 8 places, by the pair's price before the inverse's, and changes nothing else; what is held with neither priced stays as it is |
| SpotPortfolio.AddQuoteValue | classes/utils/spot-portfolio-utils.ts:157-201 | the decorated copy, the unprocessed list, and what is changed on the portfolio handed in, on every path |
| SpotPortfolio.CalculateValue | classes/utils/spot-portfolio-utils.ts:204-227 | the total of the decorations, computed at most once per quote currency; fails without balances or prices |
| SpotPortfolio.DecoratingFirstTotalsTheSame | classes/utils/spot-portfolio-utils.ts:157-227 | decorating first and totalling the copy gives the same total as totalling alone |
| SpotPortfolio.SecondTotal | classes/utils/spot-portfolio-utils.ts:157-227 | totalling the same object again loses the balances that came without equivalents |
| SpotPortfolio.TotallingTwice | classes/utils/spot-portfolio-utils.ts:229-234 | a second total of the same object agrees with the first if and only if every balance that came without equivalents is worth nothing |
| SpotPortfolio.SecondTotalIsNothing | classes/utils/spot-portfolio-utils.ts:229-234 | a single holding of the quote currency is worth something at the first total and nothing at the second |
| PositionSizer.LossIsBounded | lib/position_sizer.ts:118-167 | for a stop below the buy price with automatic sizing, selling all that was bought at the stop loses at most the allowed percentage of the portfolio, up to the rounding of the divisions |
| PositionSizer.VolumeIsBounded | lib/position_sizer.ts:128-167 | the volume respects the available balance, the caller's maximum and the percentage cap |
| PositionSizer.NoneIsBigger | lib/position_sizer.ts:118-167 | any other volume that respects the balance, the maximum, the cap and the allowed loss is no bigger than the one returned, up to the rounding of the divisions |
| PositionSizer.SizesExactly | lib/position_sizer.ts:128-167 | what is spent is the least of the allowed share of the portfolio, the balance and the caller's maximum; without a stop or with sizing switched off the share is 100 percent or the cap, and without a stop the trade is refused where the rules want one |
| PositionSizer.PortfolioIsSum | lib/position_sizer.ts:56-85 | what is available is the free quote currency, and the total adds all of that currency and every priced asset, free and locked |
| PositionSizer.BaseFitsExactly | lib/utils.ts:6-18 | base x price is at most the volume if and only if the quotient is more than half a 1e-20 unit below the next 8-place unit, and the volume is then less than one unit more would cost |
| PositionSizer.BaseCostsMore | lib/utils.ts:6-18 | 0.0 and 19 nines buy 0.01 at a price of 10, which costs 0.1 |
| PositionSizer.AvailableIsPart | lib/position_sizer.ts:56-85 | the available balance is part of the total |
| PositionSizer.Sizer.PortfolioValue | lib/position_sizer.ts:32-85 | the balance loop sums free quote balance and the worth of all priced assets |
| PositionSizer.Sizer.SizePosition | lib/position_sizer.ts:128-167 | the narrowing of the volume, step by step, and when it throws |
| Reconciliation.PassesExactly | services/spot-portfolio-vs-positions-checker/portfolio-vs-positions.ts:91-186 | the success message is sent if and only if no asset is held below its positions and every asset held above them is the quote asset, ignored, or convertible with a drift below the limit; and it is then the only message |
| Reconciliation.Reported | services/spot-portfolio-vs-positions-checker/portfolio-vs-positions.ts:131-181 | every asset out of order is reported, with its amounts or its missing positions |
| Reconciliation.OnlyWhatIsWrong | services/spot-portfolio-vs-positions-checker/portfolio-vs-positions.ts:131-181 | every problem reported is about an asset out of order, and says the excess with its drift, the positions missing altogether, or the shortage |
| Reconciliation.ChecksWhatItShould | services/spot-portfolio-vs-positions-checker/portfolio-vs-positions.ts:91-161 | expected is the sum of the positions in an asset, held is free plus locked of its last balance, and the drift is their difference converted at the direct price or the inverse one |
| Reconciliation.PortfolioVsPositions.ExpectedHoldings | services/spot-portfolio-vs-positions-checker/portfolio-vs-positions.ts:96-105 | the map of expected amounts is the sum of each asset's positions |
| Reconciliation.PortfolioVsPositions.ActualHoldings | services/spot-portfolio-vs-positions-checker/portfolio-vs-positions.ts:107-112 | the map of holdings is free plus locked of the last balance of each asset |
| Reconciliation.PortfolioVsPositions.RunOnce | services/spot-portfolio-vs-positions-checker/portfolio-vs-positions.ts:91-186 | one run appends exactly the report of its snapshots to the messages |
| Reconciliation.PortfolioVsPositions.CheckMore | services/spot-portfolio-vs-positions-checker/portfolio-vs-positions.ts:132-161 | an excess is passed over for the quote and ignored assets, and reported when its drift reaches the limit or cannot be converted |

## Left out

- Replacer and reviver callbacks, `toJSON` of other objects, dates and plain JavaScript numbers in JSON:
  arbitrary foreign code or floats. The `at` and `text` fields of a syntax error are not modelled.
- Stack depth: the parser and printer recurse without bound, as the source does.
- JsonRoundTrip.ReparsePrinted: like the other results on printing, says nothing of an object that inherits
  from a number and has, itself or before it, a member named `c`, `e` or `s`. Those are where the number
  library keeps a number's parts, and what its formatting makes of other values there is not modelled.
- Indents with characters that are not blanks, for which a round trip depends on how those characters read.
- Chunked fetching without an end date, which reads the clock anew at every step of the recursion.
- Steps above 1, and step texts with a first digit 1 that is not the step's only digit.
- Two balances sharing one object of equivalents in a portfolio.
- Balances whose text is not a number, which the sizer's loop skips.
- A zero, negative or missing price in the sizer, the valuation and the reconciliation.
- `percentage_quote_change` of a closed event and the opened event's fields: presentation of stored values.
- The ADX filter of edge58, a floating-point indicator in a library; its result is part of each signal.
- The Redis position class beyond its set of orders: keys and scaling of amounts, and its refusal to open a
  position without an edge or for a negative quote amount.
- Messaging, queues, databases, metrics, logging, health checks and configuration.
- Statistics and message texts of the edge70 portfolio tracker.
- Candle caches, price getters and symbol lists around the main loop.
