/** The main loop of the edge70 backtest: for every candle of every symbol, stops first, then signals. */
module MegaBacktester {
  import opened Options
  import opened Directions
  import opened Rounding
  import CandleWindow
  import Signals
  import opened Backtest
  import CM = CashManagement

  type History = seq<CandleWindow.Candle>

  datatype Setup = Setup(params: Signals.Parameters, bases: map<string, string>)

  /**
   Symbols in the order they are visited, each with a base asset of its own: the direction store keeps one
   key for each base asset, so that this makes it one for each symbol.
   */
  predicate GoodSetup(su: Setup, symbols: seq<string>) {
    && su.params.kind == Signals.Mock
    && Distinct(symbols) && (forall s :: s in symbols ==> s in su.bases)
    && (forall s, t :: s in symbols && t in symbols && su.bases[s] == su.bases[t] ==> s == t)
  }

  function Base(su: Setup, symbol: string): string {
    if symbol in su.bases then su.bases[symbol] else symbol
  }

  function Ticks(cs: History): seq<Signals.Tick> {
    seq(|cs|, i requires 0 <= i < |cs| => Signals.Tick(cs[i], cs[i].closeTime, cs[i].closeTime))
  }

  /** The signal generator of a symbol after its first i candles; it starts empty. */
  function EdgeAt(su: Setup, h: History, i: nat): Signals.Edge
    requires i <= |h|
  {
    Signals.Run(su.params, Signals.Fresh(su.params, [], Signals.Unset), Ticks(h[..i]))
  }

  /** A candle publishes at most one signal; messages do not reach the engine. */
  function ToEvents(su: Setup, symbol: string, xs: seq<Signals.Emission>): seq<Event> {
    if xs == [] || xs[0].Possible? then []
    else [Signal(xs[0].direction, symbol, Base(su, symbol), xs[0].price, xs[0].time)]
  }

  /** What one symbol's candle brings: a stop check, then whatever the signal generator publishes. */
  function SymbolEvents(su: Setup, symbol: string, edge: Signals.Edge, c: CandleWindow.Candle): seq<Event> {
    [Candle(symbol, Base(su, symbol), c.low, c.closeTime)]
    + ToEvents(su, symbol, Signals.Emitted(su.params, edge, Signals.Tick(c, c.closeTime, c.closeTime)))
  }

  predicate Covers(h: map<string, History>, symbols: seq<string>, n: nat) {
    forall s :: s in symbols ==> s in h && |h[s]| >= n
  }

  function RoundEvents(su: Setup, symbols: seq<string>, h: map<string, History>, i: nat): seq<Event>
    requires Covers(h, symbols, i + 1)
  {
    if symbols == [] then []
    else
      SymbolEvents(su, symbols[0], EdgeAt(su, h[symbols[0]], i), h[symbols[0]][i])
      + RoundEvents(su, symbols[1..], h, i)
  }

  /** The events of the first n rounds. */
  function Trace(su: Setup, symbols: seq<string>, h: map<string, History>, n: nat): seq<Event>
    requires Covers(h, symbols, n)
  {
    if n == 0 then [] else Trace(su, symbols, h, n - 1) + RoundEvents(su, symbols, h, n - 1)
  }

  // ---------- The events are what the engine's theorems are about ----------

  predicate GoodHistory(h: History) {
    forall i :: 0 <= i < |h| ==> h[i].close > 0.0
  }

  /** No two candles of a symbol close at the same time. */
  predicate DistinctTimes(h: map<string, History>, symbols: seq<string>) {
    forall s :: s in symbols ==> s in h && forall i, j :: 0 <= i < j < |h[s]| ==> h[s][i].closeTime != h[s][j].closeTime
  }

  predicate GoodHistories(h: map<string, History>, symbols: seq<string>) {
    forall s :: s in symbols ==> s in h && GoodHistory(h[s])
  }

  /** An event that came from one of its symbol's candles from the first n rounds. */
  ghost predicate FromCandle(su: Setup, ev: Event, c: CandleWindow.Candle) {
    && ev.baseAsset == Base(su, ev.symbol)
    && (ev.Signal? ==> ev.price == c.close && ev.time == c.closeTime + 1)
    && (ev.Candle? ==> ev.low == c.low && ev.time == c.closeTime)
  }

  ghost predicate InRounds(su: Setup, ev: Event, symbols: seq<string>, h: map<string, History>, from: nat, n: nat) {
    && ev.symbol in symbols && ev.symbol in h
    && exists i :: from <= i < n && i < |h[ev.symbol]| && FromCandle(su, ev, h[ev.symbol][i])
  }

  ghost predicate AllInRounds(su: Setup, evs: seq<Event>, symbols: seq<string>, h: map<string, History>, from: nat,
                              n: nat)
  {
    forall k :: 0 <= k < |evs| ==> InRounds(su, evs[k], symbols, h, from, n)
  }

  predicate Apart(a: Event, b: Event) {
    a.Signal? && b.Signal? ==> a.symbol != b.symbol || a.time != b.time
  }

  predicate AllApart(evs: seq<Event>) {
    forall j, k :: 0 <= j < k < |evs| ==> Apart(evs[j], evs[k])
  }

  predicate Separate(a: seq<Event>, b: seq<Event>) {
    forall j, k :: 0 <= j < |a| && 0 <= k < |b| ==> Apart(a[j], b[k])
  }

  lemma SymbolEventsShape(su: Setup, symbol: string, h: map<string, History>, edge: Signals.Edge, i: nat)
    requires symbol in h && i < |h[symbol]|
    ensures var evs := SymbolEvents(su, symbol, edge, h[symbol][i]);
            && AllInRounds(su, evs, [symbol], h, i, i + 1) && AllApart(evs)
            && |evs| <= 2 && evs[0] == Candle(symbol, Base(su, symbol), h[symbol][i].low, h[symbol][i].closeTime)
  {
    var c := h[symbol][i];
    var t := Signals.Tick(c, c.closeTime, c.closeTime);
    assert |Signals.Emitted(su.params, edge, t)| <= 1;
    forall k | 0 <= k < |SymbolEvents(su, symbol, edge, c)|
      ensures InRounds(su, SymbolEvents(su, symbol, edge, c)[k], [symbol], h, i, i + 1)
    {
      assert FromCandle(su, SymbolEvents(su, symbol, edge, c)[k], h[symbol][i]);
    }
  }

  lemma Wider(su: Setup, evs: seq<Event>, symbols: seq<string>, symbols': seq<string>, h: map<string, History>,
              from: nat, n: nat, from': nat, n': nat)
    requires AllInRounds(su, evs, symbols, h, from, n) && from' <= from && n <= n'
    requires forall s :: s in symbols ==> s in symbols'
    ensures AllInRounds(su, evs, symbols', h, from', n')
  {
    forall k | 0 <= k < |evs| ensures InRounds(su, evs[k], symbols', h, from', n') {
      assert InRounds(su, evs[k], symbols, h, from, n);
    }
  }

  /** The events of a round come from its candles, and no two signals among them share a symbol. */
  lemma {:induction false} RoundShape(su: Setup, symbols: seq<string>, h: map<string, History>, i: nat)
    requires Covers(h, symbols, i + 1) && Distinct(symbols)
    ensures AllInRounds(su, RoundEvents(su, symbols, h, i), symbols, h, i, i + 1)
    ensures AllApart(RoundEvents(su, symbols, h, i))
  {
    if symbols != [] {
      var s, edge := symbols[0], EdgeAt(su, h[symbols[0]], i);
      var first, rest := SymbolEvents(su, s, edge, h[s][i]), RoundEvents(su, symbols[1..], h, i);
      SymbolEventsShape(su, s, h, edge, i);
      Wider(su, first, [s], symbols, h, i, i + 1, i, i + 1);
      RoundShape(su, symbols[1..], h, i);
      Wider(su, rest, symbols[1..], symbols, h, i, i + 1, i, i + 1);
      forall j, k | 0 <= j < |first| && 0 <= k < |rest| ensures Apart(first[j], rest[k]) {
        assert InRounds(su, first[j], [s], h, i, i + 1) && InRounds(su, rest[k], symbols[1..], h, i, i + 1);
      }
      Joined(su, first, rest, symbols, h, i, i + 1);
    }
  }

  lemma Joined(su: Setup, a: seq<Event>, b: seq<Event>, symbols: seq<string>, h: map<string, History>, from: nat,
               n: nat)
    requires AllInRounds(su, a, symbols, h, from, n) && AllInRounds(su, b, symbols, h, from, n)
    requires AllApart(a) && AllApart(b) && Separate(a, b)
    ensures AllInRounds(su, a + b, symbols, h, from, n) && AllApart(a + b)
  {
  }

  lemma RoundsApart(su: Setup, was: seq<Event>, now: seq<Event>, symbols: seq<string>, h: map<string, History>, n: nat)
    requires DistinctTimes(h, symbols)
    requires AllInRounds(su, was, symbols, h, 0, n) && AllInRounds(su, now, symbols, h, n, n + 1)
    ensures Separate(was, now)
  {
    forall j, k | 0 <= j < |was| && 0 <= k < |now| ensures Apart(was[j], now[k]) {
      assert InRounds(su, was[j], symbols, h, 0, n) && InRounds(su, now[k], symbols, h, n, n + 1);
    }
  }

  lemma ApartJoined(a: seq<Event>, b: seq<Event>)
    requires AllApart(a) && AllApart(b) && Separate(a, b)
    ensures AllApart(a + b)
  {
  }

  lemma {:induction false} TraceInRounds(su: Setup, symbols: seq<string>, h: map<string, History>, n: nat)
    requires Covers(h, symbols, n) && Distinct(symbols)
    ensures AllInRounds(su, Trace(su, symbols, h, n), symbols, h, 0, n)
  {
    if n > 0 {
      TraceInRounds(su, symbols, h, n - 1);
      RoundShape(su, symbols, h, n - 1);
      var was, now := Trace(su, symbols, h, n - 1), RoundEvents(su, symbols, h, n - 1);
      Wider(su, was, symbols, symbols, h, 0, n - 1, 0, n);
      Wider(su, now, symbols, symbols, h, n - 1, n, 0, n);
      InRoundsJoined(su, was, now, symbols, h, 0, n);
    }
  }

  /** One more round keeps the signals apart. */
  lemma RoundApart(su: Setup, symbols: seq<string>, h: map<string, History>, n: nat)
    requires Covers(h, symbols, n + 1) && Distinct(symbols) && DistinctTimes(h, symbols)
    requires AllApart(Trace(su, symbols, h, n))
    ensures AllApart(Trace(su, symbols, h, n) + RoundEvents(su, symbols, h, n))
  {
    var was, now := Trace(su, symbols, h, n), RoundEvents(su, symbols, h, n);
    TraceInRounds(su, symbols, h, n);
    RoundShape(su, symbols, h, n);
    RoundsApart(su, was, now, symbols, h, n);
    ApartJoined(was, now);
  }

  lemma {:induction false} TraceApart(su: Setup, symbols: seq<string>, h: map<string, History>, n: nat)
    requires Covers(h, symbols, n) && Distinct(symbols) && DistinctTimes(h, symbols)
    ensures AllApart(Trace(su, symbols, h, n))
  {
    if n > 0 {
      TraceApart(su, symbols, h, n - 1);
      RoundApart(su, symbols, h, n - 1);
    }
  }

  /**
   The trace's events come from its rounds' candles; where closing times differ, no two signals share
   symbol and time.
   */
  lemma TraceShape(su: Setup, symbols: seq<string>, h: map<string, History>, n: nat)
    requires Covers(h, symbols, n) && Distinct(symbols)
    ensures AllInRounds(su, Trace(su, symbols, h, n), symbols, h, 0, n)
    ensures DistinctTimes(h, symbols) ==> AllApart(Trace(su, symbols, h, n))
  {
    TraceInRounds(su, symbols, h, n);
    if DistinctTimes(h, symbols) { TraceApart(su, symbols, h, n); }
  }

  lemma InRoundsJoined(su: Setup, a: seq<Event>, b: seq<Event>, symbols: seq<string>, h: map<string, History>,
                       from: nat, n: nat)
    requires AllInRounds(su, a, symbols, h, from, n) && AllInRounds(su, b, symbols, h, from, n)
    ensures AllInRounds(su, a + b, symbols, h, from, n)
  {
  }

  // ---------- The events, told by the candles ----------

  /**
   What one candle of a symbol brings: its stop check, and a signal exactly when it alone rises above, or alone
   falls below, the candles of that symbol before it and its direction is not the one stored.
   */
  ghost predicate Brings(su: Setup, symbol: string, before: History, stored: Signals.Key, c: CandleWindow.Candle,
                         evs: seq<Event>) {
    var up, down := Signals.Rises(before, su.params.longLength, c), Signals.Falls(before, su.params.shortLength, c);
    var base := if symbol in su.bases then su.bases[symbol] else symbol;
    var check := Candle(symbol, base, c.low, c.closeTime);
    if up && !down && !(stored.Set? && stored.direction == Long) then
      evs == [check, Signal(Long, symbol, base, c.close, c.closeTime + 1)]
    else if down && !up && !(stored.Set? && stored.direction == Short) then
      evs == [check, Signal(Short, symbol, base, c.close, c.closeTime + 1)]
    else evs == [check]
  }

  lemma Regroup(a: seq<Event>, b: seq<Event>, c: seq<Event>, d: seq<Event>)
    ensures a + (b + c + d) == (a + b) + c + d
  {
  }

  /** A round has the events of its symbols one after another, in the order the symbols have. */
  lemma {:induction false} RoundInOrder(su: Setup, symbols: seq<string>, h: map<string, History>, i: nat, k: nat)
    requires Covers(h, symbols, i + 1) && k < |symbols|
    ensures RoundEvents(su, symbols, h, i)
         == RoundEvents(su, symbols[..k], h, i)
            + SymbolEvents(su, symbols[k], EdgeAt(su, h[symbols[k]], i), h[symbols[k]][i])
            + RoundEvents(su, symbols[k + 1..], h, i)
  {
    var first := SymbolEvents(su, symbols[0], EdgeAt(su, h[symbols[0]], i), h[symbols[0]][i]);
    if k == 0 {
      assert symbols[..0] == [];
      assert [] + first == first;
    } else {
      var rest, at := symbols[1..], symbols[k];
      RoundInOrder(su, rest, h, i, k - 1);
      assert symbols[..k][1..] == rest[..k - 1] && rest[k..] == symbols[k + 1..] && rest[k - 1] == at;
      Regroup(first, RoundEvents(su, rest[..k - 1], h, i), SymbolEvents(su, at, EdgeAt(su, h[at], i), h[at][i]),
              RoundEvents(su, symbols[k + 1..], h, i));
    }
  }

  lemma TicksHaveCandles(cs: History)
    ensures [] + Signals.Candles(Ticks(cs)) == cs
  {
  }

  lemma SymbolEventsExactly(su: Setup, symbol: string, h: History, i: nat)
    requires i < |h| && su.params.kind == Signals.Mock && su.params.longLength >= 1 && su.params.shortLength >= 1
    ensures Brings(su, symbol, h[..i], EdgeAt(su, h, i).key, h[i], SymbolEvents(su, symbol, EdgeAt(su, h, i), h[i]))
  {
    var e, t := EdgeAt(su, h, i), Signals.Tick(h[i], h[i].closeTime, h[i].closeTime);
    Signals.BreaksExactly(su.params, [], Signals.Unset, Ticks(h[..i]), h[i]);
    TicksHaveCandles(h[..i]);
    forall d
      ensures Signals.DirectionOf(su.params, e, t) == Some(d) <==> Signals.StandsFor(su.params, h[..i], e.key, t, d)
    {
      Signals.DirectionExactly(su.params, e, h[..i], t, d);
    }
    Signals.EmissionExactly(su.params, e, t);
  }

  ghost function Bases(su: Setup, symbols: seq<string>): (r: seq<string>)
    ensures forall s :: s in symbols ==> Base(su, s) in r
  {
    if symbols == [] then [] else [Base(su, symbols[0])] + Bases(su, symbols[1..])
  }

  lemma TraceIsSane(su: Setup, symbols: seq<string>, h: map<string, History>, n: nat, assets: seq<string>)
    requires Covers(h, symbols, n) && GoodSetup(su, symbols) && GoodHistories(h, symbols)
    requires forall s :: s in symbols ==> Base(su, s) in assets
    ensures AllSane(Trace(su, symbols, h, n)) && AllIn(Trace(su, symbols, h, n), assets)
  {
    TraceInRounds(su, symbols, h, n);
    var evs := Trace(su, symbols, h, n);
    forall k | 0 <= k < |evs| ensures Sane(evs[k]) && evs[k].baseAsset in assets {
      assert InRounds(su, evs[k], symbols, h, 0, n);
      assert GoodHistory(h[evs[k].symbol]);
    }
  }

  /**
   For any candles with positive closes, the loop's events keep the money within rounding, and no stop
   check among them throws, with any sizer.
   */
  lemma LoopIsSound(m: Market, su: Setup, symbols: seq<string>, h: map<string, History>, n: nat, assets: seq<string>,
                    cash: real, facility: real, dollarLoans: bool)
    requires Covers(h, symbols, n) && GoodSetup(su, symbols) && GoodHistories(h, symbols)
    requires cash >= 0.0 && facility >= 0.0 && GoodMarket(m)
    requires Distinct(assets) && forall s :: s in symbols ==> Base(su, s) in assets
    ensures var evs, start := Trace(su, symbols, h, n), Start(cash, facility, dollarLoans);
            AllSane(evs) && Conserves(m, start, evs, assets) && NeverThrows(m, start, evs)
  {
    TraceIsSane(su, symbols, h, n, assets);
    var evs := Trace(su, symbols, h, n);
    BacktestConserves(m, cash, facility, dollarLoans, evs, assets);
    BacktestNeverThrows(m, cash, facility, dollarLoans, evs);
  }

  lemma {:induction false} RunJoined(m: Market, e: Engine, a: seq<Event>, b: seq<Event>)
    requires AllSane(a + b)
    ensures AllSane(a) && AllSane(b)
    ensures Run(m, e, a + b) == Run(m, Run(m, e, a), b)
    decreases |a|
  {
    assert forall i :: 0 <= i < |a| ==> a[i] == (a + b)[i];
    assert forall i :: 0 <= i < |b| ==> b[i] == (a + b)[|a| + i];
    if a == [] {
      assert a + b == b;
    } else {
      assert (a + b)[1..] == a[1..] + b;
      RunJoined(m, Step(m, e, a[0]), a[1..], b);
    }
  }

  // ---------- The loop ----------

  class Edge70MegaBacktester {
    const market: Market
    const setup: Setup
    const symbols: seq<string>
    const execution: BacktestTradeExecution
    var candles: map<string, History>
    var edges: map<string, Signals.Edge>

    ghost predicate Valid()
      reads this, execution
    {
      && execution.Valid() && execution.market == market && GoodMarket(market)
      && GoodSetup(setup, symbols)
    }

    constructor (market: Market, setup: Setup, symbols: seq<string>, execution: BacktestTradeExecution,
                 candles: map<string, History>)
      requires execution.Valid() && execution.market == market && GoodMarket(market) && GoodSetup(setup, symbols)
      ensures Valid() && this.execution == execution && this.market == market && this.setup == setup
      ensures this.symbols == symbols && this.candles == candles
      ensures edges == map s | s in symbols :: Signals.Fresh(setup.params, [], Signals.Unset)
    {
      this.market, this.setup, this.symbols, this.execution, this.candles := market, setup, symbols, execution, candles;
      edges := map s | s in symbols :: Signals.Fresh(setup.params, [], Signals.Unset);
    }

    /** One symbol's turn in a round: its stop, then its signal generator. */
    method Turn(symbol: string, i: nat, c: CandleWindow.Candle, ghost h: map<string, History>)
      requires Valid() && symbol in symbols && Covers(h, symbols, i + 1) && c == h[symbol][i] && c.close > 0.0
      requires symbol in edges && edges[symbol] == EdgeAt(setup, h[symbol], i)
      requires Inv(market, execution.View())
      modifies this`edges, execution, execution.bank, execution.store, execution.contexts, execution.tracker
      ensures Valid() && Inv(market, execution.View())
      ensures edges == old(edges)[symbol := EdgeAt(setup, h[symbol], i + 1)]
      ensures var evs := SymbolEvents(setup, symbol, EdgeAt(setup, h[symbol], i), c);
              && AllSane(evs)
              && execution.View() == Run(market, old(execution.View()), evs)
    {
      var t := Signals.Tick(c, c.closeTime, c.closeTime);
      SymbolEventsShape(setup, symbol, h, edges[symbol], i);
      EdgeAtNext(setup, h[symbol], i);
      ghost var evs := SymbolEvents(setup, symbol, edges[symbol], c);
      execution.IngestNewCandle(Candle(symbol, Base(setup, symbol), c.low, c.closeTime));
      var signals := ToEvents(setup, symbol, Signals.Emitted(setup.params, edges[symbol], t));
      edges := edges[symbol := Signals.Ingest(setup.params, edges[symbol], t)];
      assert signals == evs[1..];
      RunShort(market, old(execution.View()), evs);
      if signals != [] {
        execution.PublishSignal(signals[0]);
      }
    }

    static lemma RunShort(m: Market, e: Engine, evs: seq<Event>)
      requires 1 <= |evs| <= 2 && AllSane(evs)
      ensures Run(m, e, evs) == if |evs| == 1 then Step(m, e, evs[0]) else Step(m, Step(m, e, evs[0]), evs[1])
    {
      if |evs| == 1 {
        assert evs[1..] == [];
      } else {
        var e1 := Step(m, e, evs[0]);
        assert evs[1..] == [evs[1]] && [evs[1]][1..] == [];
        assert Run(m, e1, [evs[1]]) == Run(m, Step(m, e1, evs[1]), []);
      }
    }

    /** One round: the next candle of every symbol, or false as soon as one has none left. */
    method Round(n: nat, ghost h: map<string, History>) returns (more: bool)
      requires Valid() && Inv(market, execution.View()) && Covers(h, symbols, n) && GoodHistories(h, symbols)
      requires Remaining(candles, h, n) && EdgesAt(edges, h, n)
      modifies this`candles, this`edges, execution, execution.bank, execution.store, execution.contexts,
          execution.tracker
      ensures Valid() && Inv(market, execution.View())
      ensures if more
              then Covers(h, symbols, n + 1) && Remaining(candles, h, n + 1) && EdgesAt(edges, h, n + 1)
              else exists s :: s in symbols && |h[s]| == n
      ensures AllSane(Trace(setup, symbols, h, n)) && (more ==> AllSane(Trace(setup, symbols, h, n + 1)))
      ensures forall start: Engine ::
        old(execution.View()) == Run(market, start, Trace(setup, symbols, h, n)) ==>
        execution.View() == Run(market, start, Trace(setup, symbols, h, if more then n + 1 else n))
    {
      var round;
      more, round := TakeRound(n, h);
      TraceIsSane(setup, symbols, h, n, Bases(setup, symbols));
      if more {
        forall start: Engine { TraceStep(market, start, setup, symbols, h, n); }
        PlayRound(round, n, h);
      }
    }

    /**
     Takes the next candle of every symbol until one has none left. Returns how many rounds were
     played; false when there are no symbols, where the source finds no timestamp and throws.
     */
    method Play() returns (ok: bool, count: nat)
      requires Valid() && Inv(market, execution.View())
      requires GoodHistories(candles, symbols)
      requires edges == map s | s in symbols :: Signals.Fresh(setup.params, [], Signals.Unset)
      modifies this`candles, this`edges, execution, execution.bank, execution.store, execution.contexts,
          execution.tracker
      ensures ok <==> symbols != []
      ensures Inv(market, execution.View()) && Covers(old(candles), symbols, count)
      ensures ok ==> exists s :: s in symbols && |old(candles)[s]| == count
      ensures var evs := Trace(setup, symbols, old(candles), count);
              AllSane(evs) && execution.View() == Run(market, old(execution.View()), evs)
    {
      ghost var h := candles;
      count := 0;
      if symbols == [] {
        return false, 0;
      }
      while true
        invariant Valid() && Inv(market, execution.View()) && Covers(h, symbols, count)
        invariant Remaining(candles, h, count) && EdgesAt(edges, h, count)
        invariant AllSane(Trace(setup, symbols, h, count))
        invariant execution.View() == Run(market, old(execution.View()), Trace(setup, symbols, h, count))
        decreases |h[symbols[0]]| - count
      {
        var more := Round(count, h);
        if !more {
          return true, count;
        }
        count := count + 1;
      }
    }

    ghost predicate Remaining(candles: map<string, History>, h: map<string, History>, n: nat) {
      forall s :: s in symbols ==> s in h && |h[s]| >= n && s in candles && candles[s] == h[s][n..]
    }

    ghost predicate EdgesAt(edges: map<string, Signals.Edge>, h: map<string, History>, n: nat) {
      forall s :: s in symbols ==> s in h && |h[s]| >= n && s in edges && edges[s] == EdgeAt(setup, h[s], n)
    }

    /** Shifts the next candle off every symbol's list; false as soon as one is exhausted. */
    method TakeRound(n: nat, ghost h: map<string, History>)
      returns (more: bool, round: map<string, CandleWindow.Candle>)
      requires Remaining(candles, h, n) && Distinct(symbols)
      modifies this`candles
      ensures more ==> Covers(h, symbols, n + 1) && Remaining(candles, h, n + 1)
      ensures more ==> forall s :: s in symbols ==> s in round && round[s] == h[s][n]
      ensures !more ==> exists s :: s in symbols && |h[s]| == n
    {
      round := map[];
      var i := 0;
      while i < |symbols|
        invariant 0 <= i <= |symbols|
        invariant forall j :: 0 <= j < i ==>
          |h[symbols[j]]| > n && symbols[j] in round && round[symbols[j]] == h[symbols[j]][n]
          && symbols[j] in candles && candles[symbols[j]] == h[symbols[j]][n + 1..]
        invariant forall j :: i <= j < |symbols| ==> symbols[j] in candles && candles[symbols[j]] == h[symbols[j]][n..]
      {
        var s := symbols[i];
        if candles[s] == [] {
          return false, round;
        }
        round := round[s := candles[s][0]];
        candles := candles[s := candles[s][1..]];
        i := i + 1;
      }
      more := true;
    }

    /** The edges of the first i symbols have seen the candles of round n, the others have not yet. */
    ghost predicate Turned(edges: map<string, Signals.Edge>, h: map<string, History>, n: nat, i: nat) {
      forall j :: 0 <= j < |symbols| ==>
        && symbols[j] in h && |h[symbols[j]]| > n && symbols[j] in edges
        && edges[symbols[j]] == EdgeAt(setup, h[symbols[j]], if j < i then n + 1 else n)
    }

    /** The turn of symbol i in a round, in terms of the events the round still brings. */
    method PlaySymbol(i: nat, c: CandleWindow.Candle, n: nat, ghost h: map<string, History>)
      requires Valid() && Inv(market, execution.View()) && i < |symbols|
      requires Covers(h, symbols, n + 1) && GoodHistories(h, symbols) && c == h[symbols[i]][n]
      requires Turned(edges, h, n, i) && AllSane(RoundEvents(setup, symbols[i..], h, n))
      modifies this`edges, execution, execution.bank, execution.store, execution.contexts, execution.tracker
      ensures Valid() && Inv(market, execution.View()) && Turned(edges, h, n, i + 1)
      ensures AllSane(RoundEvents(setup, symbols[i + 1..], h, n))
      ensures Run(market, old(execution.View()), RoundEvents(setup, symbols[i..], h, n))
           == Run(market, execution.View(), RoundEvents(setup, symbols[i + 1..], h, n))
    {
      RoundStep(market, setup, execution.View(), symbols[i..], h, n);
      assert symbols[i..][1..] == symbols[i + 1..] && symbols[i..][0] == symbols[i];
      assert GoodHistory(h[symbols[i]]);
      Turn(symbols[i], n, c, h);
    }

    method PlayRound(round: map<string, CandleWindow.Candle>, n: nat, ghost h: map<string, History>)
      requires Valid() && Inv(market, execution.View()) && Covers(h, symbols, n + 1) && GoodHistories(h, symbols)
      requires forall s :: s in symbols ==> s in round && round[s] == h[s][n]
      requires EdgesAt(edges, h, n)
      modifies this`edges, execution, execution.bank, execution.store, execution.contexts, execution.tracker
      ensures Valid() && Inv(market, execution.View()) && EdgesAt(edges, h, n + 1)
      ensures AllSane(RoundEvents(setup, symbols, h, n))
      ensures execution.View() == Run(market, old(execution.View()), RoundEvents(setup, symbols, h, n))
    {
      ghost var start := execution.View();
      RoundIsSane(setup, symbols, h, n);
      assert symbols[0..] == symbols && symbols[|symbols|..] == [];
      var i := 0;
      while i < |symbols|
        invariant 0 <= i <= |symbols| && Valid() && Inv(market, execution.View()) && Turned(edges, h, n, i)
        invariant AllSane(RoundEvents(setup, symbols[i..], h, n))
        invariant Run(market, start, RoundEvents(setup, symbols, h, n))
            == Run(market, execution.View(), RoundEvents(setup, symbols[i..], h, n))
      {
        PlaySymbol(i, round[symbols[i]], n, h);
        i := i + 1;
      }
    }
  }

  lemma TraceStep(m: Market, e: Engine, su: Setup, symbols: seq<string>, h: map<string, History>, n: nat)
    requires Covers(h, symbols, n + 1) && GoodSetup(su, symbols) && GoodHistories(h, symbols)
    ensures AllSane(Trace(su, symbols, h, n)) && AllSane(Trace(su, symbols, h, n + 1))
        && AllSane(RoundEvents(su, symbols, h, n))
    ensures Run(m, e, Trace(su, symbols, h, n + 1))
        == Run(m, Run(m, e, Trace(su, symbols, h, n)), RoundEvents(su, symbols, h, n))
  {
    TraceIsSane(su, symbols, h, n + 1, Bases(su, symbols));
    RunJoined(m, e, Trace(su, symbols, h, n), RoundEvents(su, symbols, h, n));
  }

  lemma RoundStep(m: Market, su: Setup, e: Engine, symbols: seq<string>, h: map<string, History>, n: nat)
    requires symbols != [] && Covers(h, symbols, n + 1) && AllSane(RoundEvents(su, symbols, h, n))
    ensures var s := symbols[0];
            var evs := SymbolEvents(su, s, EdgeAt(su, h[s], n), h[s][n]);
            var rest := RoundEvents(su, symbols[1..], h, n);
            AllSane(evs) && AllSane(rest) && Run(m, e, RoundEvents(su, symbols, h, n)) == Run(m, Run(m, e, evs), rest)
  {
    var s := symbols[0];
    RunJoined(m, e, SymbolEvents(su, s, EdgeAt(su, h[s], n), h[s][n]), RoundEvents(su, symbols[1..], h, n));
  }

  lemma RoundIsSane(su: Setup, symbols: seq<string>, h: map<string, History>, n: nat)
    requires Covers(h, symbols, n + 1) && GoodSetup(su, symbols) && GoodHistories(h, symbols)
    ensures AllSane(RoundEvents(su, symbols, h, n))
  {
    RoundShape(su, symbols, h, n);
    var evs := RoundEvents(su, symbols, h, n);
    forall k | 0 <= k < |evs| ensures Sane(evs[k]) {
      assert InRounds(su, evs[k], symbols, h, n, n + 1);
      assert GoodHistory(h[evs[k].symbol]);
    }
  }

  lemma EdgeAtNext(su: Setup, h: History, i: nat)
    requires i < |h|
    ensures EdgeAt(su, h, i + 1)
        == Signals.Ingest(su.params, EdgeAt(su, h, i), Signals.Tick(h[i], h[i].closeTime, h[i].closeTime))
  {
    var ts := Ticks(h[..i + 1]);
    assert ts[..i] == Ticks(h[..i]);
  }
}
