/**
 The edge70 backtest: long signals become buys with a stop, short signals and stops become sells, the
 bank lends and is repaid, and the ledger records what is held.
 */
module Backtest {
  import opened Directions
  import opened Options
  import opened Rounding
  import opened CashManagement
  import opened SpotPositions

  /**
   One exchange and one edge; a position is known by its base asset. The position sizer may look at the
   whole state: the fixed one does not, the all-in one asks for all the cash there is.
   */
  datatype Market = Market(
    exchange: string, edge: string, quoteAsset: string, stopFactor: real, sizer: (Engine, string) -> real)

  datatype Engine = Engine(bank: Bank, stops: map<string, real>, store: Store, closings: seq<ClosedEvent>)

  /** A signal, or a candle whose low may reach a stop. */
  datatype Event =
    | Signal(direction: Direction, symbol: string, baseAsset: string, price: real, time: int)
    | Candle(symbol: string, baseAsset: string, low: real, time: int)

  function Pid(m: Market, base: string): PositionId {
    PositionId(m.exchange, Some(m.edge), base)
  }

  function Held(m: Market, e: Engine, base: string): Position {
    Lookup(e.store, Pid(m, base))
  }

  predicate InPosition(m: Market, e: Engine, base: string) {
    Held(m, e, base).size > 0.0
  }

  function StopPrice(m: Market, price: real): real {
    Round8(Times(price, m.stopFactor))
  }

  function AddStop(m: Market, e: Engine, base: string, price: real): Engine {
    e.(stops := e.stops[base := StopPrice(m, price)])
  }

  function MakeOrder(m: Market, symbol: string, base: string, side: Side, time: int, amount: real, quote: real,
                     price: real): Order
  {
    var id := Backtest(symbol, side, time);
    Order(id, m.exchange, symbol, base, m.quoteAsset, side, time, amount, quote, Some(price), "")
  }

  /** The tracker's part, for an order whose context was just recorded under the market's edge. */
  function Fill(m: Market, e: Engine, o: Order): Engine {
    var id := Pid(m, o.baseAsset);
    var out := Filled(id, Lookup(e.store, id), o, VolumeOnly);
    e.(store := Stored(e.store, id, out),
       closings := e.closings + if out.closing.Some? then [out.closing.value] else [])
  }

  function BuyOrder(m: Market, s: Event, spent: real): Order
    requires s.Signal? && s.price > 0.0
  {
    MakeOrder(m, s.symbol, s.baseAsset, Buy, s.time, Round8(Div(spent, s.price)), spent, s.price)
  }

  /** What the sizer asks for, for a signal. */
  function Asked(m: Market, e: Engine, s: Event): real {
    m.sizer(e, s.baseAsset)
  }

  function BuyWithStop(m: Market, e: Engine, s: Event): Engine
    requires s.Signal? && s.price > 0.0
  {
    var spent := Withdrawn(e.bank, Asked(m, e, s));
    var e' := e.(bank := Withdraw(e.bank, Asked(m, e, s)));
    if spent == 0.0 then e' else Fill(m, AddStop(m, e', s.baseAsset, s.price), BuyOrder(m, s, spent))
  }

  /** A sell of an amount for the quote it returns. */
  function SellFor(m: Market, e: Engine, symbol: string, base: string, time: int, price: real, amount: real,
                   quote: real): Engine
  {
    Fill(m, e.(bank := PayIn(e.bank, quote)), MakeOrder(m, symbol, base, Sell, time, amount, quote, price))
  }

  function ExecuteSell(m: Market, e: Engine, symbol: string, base: string, time: int, price: real,
                       amount: real): Engine
  {
    SellFor(m, e, symbol, base, time, price, amount, Round8(Times(amount, price)))
  }

  function Publish(m: Market, e: Engine, s: Event): Engine
    requires s.Signal? && s.price > 0.0
  {
    match s.direction
    case Long =>
      if InPosition(m, e, s.baseAsset) then e
      else AddStop(m, BuyWithStop(m, e, s), s.baseAsset, s.price)
    case Short =>
      if InPosition(m, e, s.baseAsset) then
        ExecuteSell(m, e, s.symbol, s.baseAsset, s.time, s.price, Held(m, e, s.baseAsset).size)
      else e
  }

  /** The candle reaches the stop of an open position. */
  predicate HitsStop(m: Market, e: Engine, c: Event)
    requires c.Candle?
  {
    InPosition(m, e, c.baseAsset) && c.baseAsset in e.stops && c.low <= e.stops[c.baseAsset]
  }

  function CheckStop(m: Market, e: Engine, c: Event): Engine
    requires c.Candle?
  {
    if HitsStop(m, e, c) then
      var sold := ExecuteSell(m, e, c.symbol, c.baseAsset, c.time, e.stops[c.baseAsset], Held(m, e, c.baseAsset).size);
      sold.(stops := sold.stops - {c.baseAsset})
    else e
  }

  /** Comparing a low with a missing stop throws, and so does a position left over after a stop. */
  predicate Throws(m: Market, e: Engine, c: Event)
    requires c.Candle?
  {
    || (InPosition(m, e, c.baseAsset) && c.baseAsset !in e.stops)
    || (HitsStop(m, e, c) && InPosition(m, CheckStop(m, e, c), c.baseAsset))
  }

  // ---------- Runs ----------

  predicate Sane(ev: Event) {
    ev.Signal? ==> ev.price > 0.0
  }

  /** In no state without debts does the sizer ask for less than nothing. */
  ghost predicate GoodMarket(m: Market) {
    m.stopFactor >= 0.0 && forall e: Engine, base: string :: Solvent(e.bank) ==> m.sizer(e, base) >= 0.0
  }

  const ALL_IN: (Engine, string) -> real := (e: Engine, base: string) => e.bank.cash

  function Fixed(amount: real): (Engine, string) -> real {
    (e: Engine, base: string) => amount
  }

  /** Both of the repository's sizers will do. */
  lemma SizersAreGood(m: Market, amount: real)
    requires m.stopFactor >= 0.0 && amount >= 0.0
    ensures GoodMarket(m.(sizer := ALL_IN)) && GoodMarket(m.(sizer := Fixed(amount)))
  {
  }

  predicate AllSane(evs: seq<Event>) {
    forall i :: 0 <= i < |evs| ==> Sane(evs[i])
  }

  function Step(m: Market, e: Engine, ev: Event): Engine
    requires Sane(ev)
  {
    if ev.Signal? then Publish(m, e, ev) else CheckStop(m, e, ev)
  }

  function Run(m: Market, e: Engine, evs: seq<Event>): Engine
    requires AllSane(evs)
    decreases |evs|
  {
    if evs == [] then e else Run(m, Step(m, e, evs[0]), evs[1..])
  }

  // ---------- What holds in every reachable state ----------

  /**
   Only buys are ever on record for a position, and without one only buys of nothing; what is held was
   entered at the recorded price.
   */
  ghost predicate GoodPosition(m: Market, e: Engine, base: string) {
    var p := Held(m, e, base);
    && p.size >= 0.0
    && (forall i :: 0 <= i < |p.orders| ==> p.orders[i].id.Backtest? && p.orders[i].id.side == Buy)
    && (p.size == 0.0 ==> forall i :: 0 <= i < |p.orders| ==> p.orders[i].base == 0.0)
    && (p.size > 0.0 ==>
          && p.entry.Some? && p.entry.value.size == p.size && p.entry.value.price > 0.0
          && base in e.stops && e.stops[base] == StopPrice(m, p.entry.value.price))
  }

  ghost predicate Inv(m: Market, e: Engine) {
    Solvent(e.bank) && forall base :: GoodPosition(m, e, base)
  }

  /** Filling an order touches one position. */
  lemma FillFrame(m: Market, e: Engine, o: Order, base: string)
    requires base != o.baseAsset
    ensures Held(m, Fill(m, e, o), base) == Held(m, e, base)
  {
    assert Pid(m, base) != Pid(m, o.baseAsset);
  }

  lemma FillOwn(m: Market, e: Engine, o: Order)
    ensures var out := Filled(Pid(m, o.baseAsset), Held(m, e, o.baseAsset), o, VolumeOnly);
            Held(m, Fill(m, e, o), o.baseAsset) == After(out)
  {
  }

  /** What a sell of everything held leaves behind: no position, and the quote in the bank. */
  function Sold(m: Market, e: Engine, symbol: string, base: string, time: int, price: real, quote: real): Engine {
    var p := Held(m, e, base);
    var o := MakeOrder(m, symbol, base, Sell, time, p.size, quote, price);
    var closing := ClosedEvent(Pid(m, base), p.entry, p.orders + [o], time, price, p.size, quote);
    e.(bank := PayIn(e.bank, quote), store := e.store - {Pid(m, base)}, closings := e.closings + [closing])
  }

  lemma NoSellOnRecord(m: Market, e: Engine, base: string, o: Order)
    requires GoodPosition(m, e, base) && o.id.Backtest? && o.id.side == Sell
    ensures o !in Held(m, e, base).orders
  {
  }

  lemma FillFullSell(m: Market, e: Engine, o: Order)
    requires var p := Held(m, e, o.baseAsset);
             o.side == Sell && o.price.Some? && p.size != 0.0 && o.base == p.size && o !in p.orders
    ensures var p, id := Held(m, e, o.baseAsset), Pid(m, o.baseAsset);
            Fill(m, e, o) == e.(store := e.store - {id}, closings := e.closings +
              [ClosedEvent(id, p.entry, p.orders + [o], o.time, o.price.value, o.base, o.quote)])
  {
    FullSell(Pid(m, o.baseAsset), Held(m, e, o.baseAsset), o);
  }

  /** A sell of the whole size closes the position and erases its record, whatever it held. */
  lemma SellCloses(m: Market, e: Engine, symbol: string, base: string, time: int, price: real, quote: real)
    requires GoodPosition(m, e, base) && InPosition(m, e, base)
    ensures SellFor(m, e, symbol, base, time, price, Held(m, e, base).size, quote)
        == Sold(m, e, symbol, base, time, price, quote)
    ensures Held(m, Sold(m, e, symbol, base, time, price, quote), base) == NO_POSITION
  {
    var o := MakeOrder(m, symbol, base, Sell, time, Held(m, e, base).size, quote, price);
    NoSellOnRecord(m, e, base, o);
    FillFullSell(m, e.(bank := PayIn(e.bank, quote)), o);
  }

  lemma SoldKeepsInv(m: Market, e: Engine, symbol: string, base: string, time: int, price: real, quote: real)
    requires Inv(m, e) && quote >= 0.0
    ensures Inv(m, Sold(m, e, symbol, base, time, price, quote))
  {
    var e' := Sold(m, e, symbol, base, time, price, quote);
    forall b ensures GoodPosition(m, e', b) {
      assert b != base ==> Pid(m, b) != Pid(m, base);
      assert GoodPosition(m, e, b);
    }
  }

  lemma SellKeepsInv(m: Market, e: Engine, symbol: string, base: string, time: int, price: real)
    requires Inv(m, e) && InPosition(m, e, base) && price >= 0.0
    ensures var e' := ExecuteSell(m, e, symbol, base, time, price, Held(m, e, base).size);
            Inv(m, e') && Held(m, e', base) == NO_POSITION
  {
    var size := Held(m, e, base).size;
    assert GoodPosition(m, e, base);
    assert size * price >= 0.0;
    var quote := Round8(Times(size, price));
    SellCloses(m, e, symbol, base, time, price, quote);
    SoldKeepsInv(m, e, symbol, base, time, price, quote);
  }

  /** A buy leaves the bank short by what it spent, and puts a stop under what it opened. */
  lemma BuyOpens(m: Market, e: Engine, s: Event)
    requires s.Signal? && Sane(s) && Inv(m, e) && !InPosition(m, e, s.baseAsset)
    ensures var p, e' := Held(m, e, s.baseAsset), BuyWithStop(m, e, s);
            var spent := Withdrawn(e.bank, Asked(m, e, s));
            var o := BuyOrder(m, s, spent);
            && e'.bank == Withdraw(e.bank, Asked(m, e, s)) && e'.closings == e.closings
            && (spent == 0.0 ==> e' == e.(bank := e'.bank))
            && (spent != 0.0 ==> e'.stops == e.stops[s.baseAsset := StopPrice(m, s.price)])
            && (spent != 0.0 && o in p.orders ==> o.base == 0.0 && Held(m, e', s.baseAsset) == p)
            && (spent != 0.0 && o !in p.orders ==>
                  Held(m, e', s.baseAsset) ==
                    Position(o.base, p.orders + [o], Some(Entry(s.time, o.base, spent, m.quoteAsset, s.price))))
  {
    var spent := Withdrawn(e.bank, Asked(m, e, s));
    assert GoodPosition(m, e, s.baseAsset);
    if spent != 0.0 {
      var e1 := AddStop(m, e.(bank := Withdraw(e.bank, Asked(m, e, s))), s.baseAsset, s.price);
      FillOwn(m, e1, BuyOrder(m, s, spent));
    }
  }

  lemma BuyKeepsInv(m: Market, e: Engine, s: Event)
    requires s.Signal? && Sane(s) && Inv(m, e) && GoodMarket(m) && !InPosition(m, e, s.baseAsset)
    ensures Inv(m, AddStop(m, BuyWithStop(m, e, s), s.baseAsset, s.price))
  {
    var spent := Withdrawn(e.bank, Asked(m, e, s));
    var o := BuyOrder(m, s, spent);
    var e' := BuyWithStop(m, e, s);
    BuyOpens(m, e, s);
    WithdrawalSize(e.bank, Asked(m, e, s));
    WithdrawalBalances(e.bank, Asked(m, e, s));
    assert spent / s.price >= 0.0;
    assert GoodPosition(m, e, s.baseAsset);
    forall b ensures GoodPosition(m, AddStop(m, e', s.baseAsset, s.price), b) {
      if b != s.baseAsset {
        if spent != 0.0 {
          FillFrame(m, AddStop(m, e.(bank := Withdraw(e.bank, Asked(m, e, s))), s.baseAsset, s.price), o, b);
        }
        assert GoodPosition(m, e, b);
      }
    }
  }

  /** A long signal sized all-in leaves no cash and borrows nothing. */
  lemma AllInSpendsTheCash(m: Market, e: Engine, s: Event)
    requires s.Signal? && s.direction == Long && Sane(s) && Inv(m, e) && m.sizer == ALL_IN
    requires !InPosition(m, e, s.baseAsset)
    ensures Publish(m, e, s).bank == e.bank.(cash := 0.0)
  {
    BuyOpens(m, e, s);
    LendsTheShortfall(e.bank, e.bank.cash);
  }

  /** No step throws, and every step keeps the invariant. */
  lemma StepKeepsInv(m: Market, e: Engine, ev: Event)
    requires Sane(ev) && Inv(m, e) && GoodMarket(m)
    ensures Inv(m, Step(m, e, ev))
    ensures ev.Candle? ==> !Throws(m, e, ev)
  {
    assert GoodPosition(m, e, ev.baseAsset);
    match ev
    case Signal(Long, _, base, price, _) => if !InPosition(m, e, base) { BuyKeepsInv(m, e, ev); }
    case Signal(Short, symbol, base, price, time) =>
      if InPosition(m, e, base) { SellKeepsInv(m, e, symbol, base, time, price); }
    case Candle(symbol, base, low, time) =>
      if HitsStop(m, e, ev) {
        var price := e.stops[base];
        assert Held(m, e, base).entry.value.price * m.stopFactor >= 0.0;
        SellKeepsInv(m, e, symbol, base, time, price);
        var sold := ExecuteSell(m, e, symbol, base, time, price, Held(m, e, base).size);
        forall b ensures GoodPosition(m, sold.(stops := sold.stops - {base}), b) {
          assert GoodPosition(m, sold, b);
        }
      }
  }

  /**
   In every state a backtest can reach, a held position has the stop of its entry price, nothing is
   overdrawn, and the next candle cannot make the run throw.
   */
  lemma {:induction false} RunIsSafe(m: Market, e: Engine, evs: seq<Event>, next: Event)
    requires Inv(m, e) && GoodMarket(m)
    requires AllSane(evs)
    ensures Inv(m, Run(m, e, evs))
    ensures next.Candle? ==> !Throws(m, Run(m, e, evs), next)
    decreases |evs|
  {
    if evs == [] {
      if next.Candle? { StepKeepsInv(m, e, next); }
    } else {
      StepKeepsInv(m, e, evs[0]);
      RunIsSafe(m, Step(m, e, evs[0]), evs[1..], next);
    }
  }

  // ---------- Conservation ----------

  function Cost(p: Position): real {
    if p.entry.Some? then Times(p.size, p.entry.value.price) else 0.0
  }

  /** What is held in the given assets, at entry prices. */
  function OpenValue(m: Market, s: Store, assets: seq<string>): real {
    if assets == [] then 0.0
    else Cost(Lookup(s, Pid(m, assets[0]))) + OpenValue(m, s, assets[1..])
  }

  function Profit(c: ClosedEvent): real {
    if c.entry.Some? then Times(c.exitSize, c.exitPrice - c.entry.value.price) else 0.0
  }

  function Realised(closings: seq<ClosedEvent>): real {
    if closings == [] then 0.0 else Realised(closings[..|closings| - 1]) + Profit(closings[|closings| - 1])
  }

  /** Cash less loan, plus open positions at cost, less the profit of closed ones: all there ever was. */
  function Net(m: Market, e: Engine, assets: seq<string>): real {
    e.bank.cash - e.bank.loan + OpenValue(m, e.store, assets) - Realised(e.closings)
  }

  predicate Buys(m: Market, e: Engine, ev: Event) {
    ev.Signal? && ev.direction == Long && !InPosition(m, e, ev.baseAsset) && Withdrawn(e.bank, Asked(m, e, ev)) != 0.0
  }

  predicate Sells(m: Market, e: Engine, ev: Event) {
    if ev.Signal? then ev.direction == Short && InPosition(m, e, ev.baseAsset) else HitsStop(m, e, ev)
  }

  /** What rounding can cost: base amounts are kept to 8 places after a division to 20, quotes to 8. */
  function Slack(m: Market, e: Engine, ev: Event): real {
    if Buys(m, e, ev) then Times(ev.price, HALF_UNIT_8 + HALF_UNIT_20)
    else if Sells(m, e, ev) then HALF_UNIT_8
    else 0.0
  }

  function TotalSlack(m: Market, e: Engine, evs: seq<Event>): real
    requires AllSane(evs)
    decreases |evs|
  {
    if evs == [] then 0.0 else Slack(m, e, evs[0]) + TotalSlack(m, Step(m, e, evs[0]), evs[1..])
  }

  predicate Distinct(assets: seq<string>) {
    forall i, j :: 0 <= i < j < |assets| ==> assets[i] != assets[j]
  }

  lemma {:induction false} OpenValueChange(m: Market, s: Store, s': Store, assets: seq<string>, base: string)
    requires Distinct(assets)
    requires forall b :: b != base ==> Lookup(s', Pid(m, b)) == Lookup(s, Pid(m, b))
    ensures OpenValue(m, s', assets) - OpenValue(m, s, assets)
            == if base in assets then Cost(Lookup(s', Pid(m, base))) - Cost(Lookup(s, Pid(m, base))) else 0.0
  {
    if assets != [] {
      OpenValueChange(m, s, s', assets[1..], base);
      assert base in assets <==> base == assets[0] || base in assets[1..];
    }
  }

  lemma RealisedOne(closings: seq<ClosedEvent>, c: ClosedEvent)
    ensures Realised(closings + [c]) == Realised(closings) + Profit(c)
  {
    assert (closings + [c])[..|closings|] == closings;
  }

  lemma BoughtSize(spent: real, price: real)
    requires price > 0.0
    ensures Abs(Times(Round8(Div(spent, price)), price) - spent) <= Times(price, HALF_UNIT_8 + HALF_UNIT_20)
  {
    var exact := spent / price;
    Rescale(exact, Round8(Round20(exact)), price, HALF_UNIT_8 + HALF_UNIT_20);
    Quotient(spent, price);
  }

  lemma BuyNet(m: Market, e: Engine, ev: Event, assets: seq<string>)
    requires Sane(ev) && Inv(m, e) && Distinct(assets) && ev.baseAsset in assets && GoodMarket(m) && Buys(m, e, ev)
    ensures Abs(Net(m, Step(m, e, ev), assets) - Net(m, e, assets)) <= Slack(m, e, ev)
  {
    var base, spent := ev.baseAsset, Withdrawn(e.bank, Asked(m, e, ev));
    var e' := BuyWithStop(m, e, ev);
    var o := BuyOrder(m, ev, spent);
    BuyOpens(m, e, ev);
    WithdrawalBalances(e.bank, Asked(m, e, ev));
    assert GoodPosition(m, e, base);
    forall b | b != base ensures Lookup(e'.store, Pid(m, b)) == Lookup(e.store, Pid(m, b)) {
      FillFrame(m, AddStop(m, e.(bank := Withdraw(e.bank, Asked(m, e, ev))), base, ev.price), o, b);
    }
    OpenValueChange(m, e.store, e'.store, assets, base);
    BoughtSize(spent, ev.price);
    var p := Held(m, e, base);
    assert p.size == 0.0 && Cost(p) == 0.0;
    assert Cost(Held(m, e', base)) == Times(o.base, ev.price);
  }

  lemma ProfitOverCost(p: Position, c: ClosedEvent, price: real)
    requires p.entry.Some? && c.entry == p.entry && c.exitSize == p.size && c.exitPrice == price
    ensures Profit(c) == Times(p.size, price) - Cost(p)
  {
  }

  lemma SoldBooks(m: Market, e: Engine, symbol: string, base: string, time: int, price: real, quote: real,
                  assets: seq<string>)
    requires Inv(m, e) && Distinct(assets) && base in assets && InPosition(m, e, base)
    ensures Net(m, Sold(m, e, symbol, base, time, price, quote), assets)
         == Net(m, e, assets) + quote - Times(Held(m, e, base).size, price)
  {
    var p := Held(m, e, base);
    assert GoodPosition(m, e, base);
    var e' := Sold(m, e, symbol, base, time, price, quote);
    assert forall b :: b != base ==> Lookup(e'.store, Pid(m, b)) == Lookup(e.store, Pid(m, b));
    OpenValueChange(m, e.store, e'.store, assets, base);
    var c := e'.closings[|e.closings|];
    RealisedOne(e.closings, c);
    ProfitOverCost(p, c, price);
  }

  lemma SoldNet(m: Market, e: Engine, symbol: string, base: string, time: int, price: real, assets: seq<string>)
    requires Inv(m, e) && Distinct(assets) && base in assets && InPosition(m, e, base)
    ensures var size := Held(m, e, base).size;
            Abs(Net(m, ExecuteSell(m, e, symbol, base, time, price, size), assets) - Net(m, e, assets)) <= HALF_UNIT_8
  {
    var quote := Round8(Times(Held(m, e, base).size, price));
    SellCloses(m, e, symbol, base, time, price, quote);
    SoldBooks(m, e, symbol, base, time, price, quote, assets);
  }

  lemma StepNet(m: Market, e: Engine, ev: Event, assets: seq<string>)
    requires Sane(ev) && Inv(m, e) && Distinct(assets) && ev.baseAsset in assets && GoodMarket(m)
    ensures Abs(Net(m, Step(m, e, ev), assets) - Net(m, e, assets)) <= Slack(m, e, ev)
  {
    var size := Held(m, e, ev.baseAsset).size;
    if Buys(m, e, ev) {
      BuyNet(m, e, ev, assets);
    } else if Sells(m, e, ev) {
      SoldNet(m, e, ev.symbol, ev.baseAsset, ev.time,
              if ev.Signal? then ev.price else e.stops[ev.baseAsset], assets);
    } else if ev.Signal? && ev.direction == Long && !InPosition(m, e, ev.baseAsset) {
      WithdrawalBalances(e.bank, Asked(m, e, ev));
    }
  }

  lemma Triangle(a: real, b: real, c: real, s: real, t: real)
    requires Abs(b - a) <= s && Abs(c - b) <= t
    ensures Abs(c - a) <= s + t
  {
  }

  predicate AllIn(evs: seq<Event>, assets: seq<string>) {
    forall k :: 0 <= k < |evs| ==> evs[k].baseAsset in assets
  }

  lemma StepConserves(m: Market, e: Engine, ev: Event, assets: seq<string>)
    requires Inv(m, e) && GoodMarket(m) && Distinct(assets) && Sane(ev) && ev.baseAsset in assets
    ensures Inv(m, Step(m, e, ev)) && Abs(Net(m, Step(m, e, ev), assets) - Net(m, e, assets)) <= Slack(m, e, ev)
  {
    StepNet(m, e, ev, assets);
    StepKeepsInv(m, e, ev);
  }

  lemma RunUnfolds(m: Market, e: Engine, evs: seq<Event>)
    requires evs != [] && AllSane(evs)
    ensures var e' := Step(m, e, evs[0]);
            && Run(m, e, evs) == Run(m, e', evs[1..])
            && TotalSlack(m, e, evs) == Slack(m, e, evs[0]) + TotalSlack(m, e', evs[1..])
  {
  }

  /**
   Over a whole run, cash less loan plus open positions at cost differs from what there was at the
   start plus the profit of the positions closed since by no more than the rounding of its orders.
   */
  lemma {:induction false} RunConserves(m: Market, e: Engine, evs: seq<Event>, assets: seq<string>)
    requires Inv(m, e) && GoodMarket(m) && Distinct(assets) && AllSane(evs) && AllIn(evs, assets)
    ensures Abs(Net(m, Run(m, e, evs), assets) - Net(m, e, assets)) <= TotalSlack(m, e, evs)
    decreases |evs|
  {
    if evs != [] {
      var e' := Step(m, e, evs[0]);
      StepConserves(m, e, evs[0], assets);
      RunConserves(m, e', evs[1..], assets);
      RunUnfolds(m, e, evs);
      Triangle(Net(m, e, assets), Net(m, e', assets), Net(m, Run(m, e, evs), assets),
               Slack(m, e, evs[0]), TotalSlack(m, e', evs[1..]));
    }
  }

  /** The engine before the first candle: the starting cash, no loan, and nothing held. */
  function Start(cash: real, facility: real, dollarLoans: bool): Engine {
    Engine(Bank(cash, 0.0, facility, dollarLoans), map[], map[], [])
  }

  lemma {:induction false} NothingHeld(m: Market, assets: seq<string>)
    ensures OpenValue(m, map[], assets) == 0.0
  {
    if assets != [] { NothingHeld(m, assets[1..]); }
  }

  lemma StartIsSound(m: Market, cash: real, facility: real, dollarLoans: bool, assets: seq<string>)
    requires cash >= 0.0 && facility >= 0.0
    ensures var start := Start(cash, facility, dollarLoans); Inv(m, start) && Net(m, start, assets) == cash
  {
    NothingHeld(m, assets);
  }

  /** No candle of the run finds a held position without a stop, or leaves one behind after its stop. */
  ghost predicate NeverThrows(m: Market, start: Engine, evs: seq<Event>)
    requires AllSane(evs)
  {
    forall i :: 0 <= i < |evs| && evs[i].Candle? ==> !Throws(m, Run(m, start, evs[..i]), evs[i])
  }

  /** Cash less loan, plus what is held at cost, is the starting cash and the profit made, within rounding. */
  ghost predicate Conserves(m: Market, start: Engine, evs: seq<Event>, assets: seq<string>)
    requires AllSane(evs)
  {
    var end := Run(m, start, evs);
    Abs(end.bank.cash - end.bank.loan + OpenValue(m, end.store, assets) - (start.bank.cash + Realised(end.closings)))
    <= TotalSlack(m, start, evs)
  }

  /** From a fresh start, whatever signals and candles come, the run never throws. */
  lemma BacktestNeverThrows(m: Market, cash: real, facility: real, dollarLoans: bool, evs: seq<Event>)
    requires cash >= 0.0 && facility >= 0.0 && GoodMarket(m) && AllSane(evs)
    ensures NeverThrows(m, Start(cash, facility, dollarLoans), evs)
  {
    var start := Start(cash, facility, dollarLoans);
    StartIsSound(m, cash, facility, dollarLoans, []);
    forall i | 0 <= i < |evs| && evs[i].Candle? ensures !Throws(m, Run(m, start, evs[..i]), evs[i]) {
      RunIsSafe(m, start, evs[..i], evs[i]);
    }
  }

  /** From a fresh start the money is conserved, whatever signals and candles come. */
  lemma BacktestConserves(m: Market, cash: real, facility: real, dollarLoans: bool, evs: seq<Event>,
                          assets: seq<string>)
    requires cash >= 0.0 && facility >= 0.0 && GoodMarket(m) && Distinct(assets)
    requires AllSane(evs) && AllIn(evs, assets)
    ensures Conserves(m, Start(cash, facility, dollarLoans), evs, assets)
  {
    StartIsSound(m, cash, facility, dollarLoans, assets);
    RunConserves(m, Start(cash, facility, dollarLoans), evs, assets);
  }

  /**
   A buy the store takes for a repeat opens nothing, and the cash it was given is gone; but that happens
   only to amounts which round to no base at all, so what is lost is within the buy's rounding.
   */
  lemma RepeatedBuyIsWithinRounding(m: Market, e: Engine, ev: Event, assets: seq<string>)
    requires Sane(ev) && Inv(m, e) && Distinct(assets) && ev.baseAsset in assets && GoodMarket(m) && Buys(m, e, ev)
    requires BuyOrder(m, ev, Withdrawn(e.bank, Asked(m, e, ev))) in Held(m, e, ev.baseAsset).orders
    ensures var spent := Withdrawn(e.bank, Asked(m, e, ev));
            && Held(m, Step(m, e, ev), ev.baseAsset) == Held(m, e, ev.baseAsset)
            && Net(m, Step(m, e, ev), assets) == Net(m, e, assets) - spent && 0.0 < spent <= Slack(m, e, ev)
  {
    var base, spent := ev.baseAsset, Withdrawn(e.bank, Asked(m, e, ev));
    var e' := BuyWithStop(m, e, ev);
    BuyOpens(m, e, ev);
    WithdrawalSize(e.bank, Asked(m, e, ev));
    WithdrawalBalances(e.bank, Asked(m, e, ev));
    forall b | b != base ensures Lookup(e'.store, Pid(m, b)) == Lookup(e.store, Pid(m, b)) {
      var e1 := AddStop(m, e.(bank := Withdraw(e.bank, Asked(m, e, ev))), base, ev.price);
      FillFrame(m, e1, BuyOrder(m, ev, spent), b);
    }
    OpenValueChange(m, e.store, e'.store, assets, base);
    BoughtSize(spent, ev.price);
    assert Times(0.0, ev.price) == 0.0;
  }

  // ---------- What each event of a run does ----------

  /** The position of an asset: the exchange's, of the market's edge. */
  ghost function PositionAt(m: Market, e: Engine, base: string): Position {
    Lookup(e.store, PositionId(m.exchange, Some(m.edge), base))
  }

  ghost predicate OthersKept(m: Market, e: Engine, e': Engine, base: string) {
    forall b :: b != base ==> PositionAt(m, e', b) == PositionAt(m, e, b)
  }

  /** Everything held of an asset is sold at a price: reported, paid in at 8 places, and off the books. */
  ghost predicate SellsAll(m: Market, e: Engine, e': Engine, base: string, time: int, price: real) {
    var p := PositionAt(m, e, base);
    && |e'.closings| == |e.closings| + 1 && e'.closings[..|e.closings|] == e.closings
    && var c := e'.closings[|e.closings|];
       && c.id == PositionId(m.exchange, Some(m.edge), base) && c.entry == p.entry
       && c.exitTime == time && c.exitPrice == price && c.exitSize == p.size
       && Rounded(Times(p.size, price), c.quoteReturned, 100000000.0)
       && e'.bank == e.bank.(cash := e.bank.cash + c.quoteReturned)
       && PositionAt(m, e', base) == NO_POSITION && OthersKept(m, e, e', base)
  }

  /** A stop is put at the price times the factor, at 8 places. */
  ghost predicate PutsStop(m: Market, e: Engine, e': Engine, base: string, price: real) {
    && base in e'.stops && Rounded(Times(price, m.stopFactor), e'.stops[base], 100000000.0)
    && e'.stops == e.stops[base := e'.stops[base]]
  }

  ghost predicate BoughtFor(spent: real, price: real, amount: real)
    requires price > 0.0
  {
    exists q :: Rounded(spent / price, q, 100000000000000000000.0) && Rounded(q, amount, 100000000.0)
  }

  lemma BoughtByDivision(spent: real, price: real)
    requires price > 0.0
    ensures BoughtFor(spent, price, Round8(Div(spent, price)))
  {
    DividesTo20(spent, price);
    RoundsTo8(Div(spent, price));
  }

  lemma StopIsRounded(m: Market, price: real)
    ensures Rounded(Times(price, m.stopFactor), StopPrice(m, price), 100000000.0)
  {
    RoundsTo8(Times(price, m.stopFactor));
  }

  /** What the sizer asks for is withdrawn, as far as there is any, and spent on the asset. */
  ghost predicate BuysNew(m: Market, e: Engine, e': Engine, s: Event)
    requires s.Signal? && s.price > 0.0
  {
    var asked := m.sizer(e, s.baseAsset);
    var spent := Min(asked, e.bank.cash + Lent(e.bank, asked));
    var p, p' := PositionAt(m, e, s.baseAsset), PositionAt(m, e', s.baseAsset);
    && e'.bank == Withdraw(e.bank, asked) && e'.closings == e.closings
    && PutsStop(m, e, e', s.baseAsset, s.price) && OthersKept(m, e, e', s.baseAsset)
    && (p' != p ==> spent > 0.0 && BoughtFor(spent, s.price, p'.size)
                    && p'.entry == Some(Entry(s.time, p'.size, spent, m.quoteAsset, s.price)))
    && (p' == p && spent > 0.0 ==> BoughtFor(spent, s.price, 0.0))
  }

  /** A candle sells at a stop it reaches, a short signal sells, a long one buys, and nothing else happens. */
  ghost predicate Acts(m: Market, e: Engine, ev: Event, e': Engine)
    requires Sane(ev)
  {
    var base, held := ev.baseAsset, PositionAt(m, e, ev.baseAsset).size > 0.0;
    match ev
    case Candle(_, _, low, time) =>
      if held && base in e.stops && low <= e.stops[base] then
        SellsAll(m, e, e', base, time, e.stops[base]) && e'.stops == e.stops - {base}
      else e' == e
    case Signal(Short, _, _, price, time) =>
      if held then SellsAll(m, e, e', base, time, price) && e'.stops == e.stops else e' == e
    case Signal(Long, _, _, _, _) =>
      if held then e' == e else BuysNew(m, e, e', ev)
  }

  lemma SoldActs(m: Market, e: Engine, symbol: string, base: string, time: int, price: real)
    requires Inv(m, e) && PositionAt(m, e, base).size > 0.0
    ensures var e' := ExecuteSell(m, e, symbol, base, time, price, Held(m, e, base).size);
            SellsAll(m, e, e', base, time, price) && e'.stops == e.stops
  {
    var size := Held(m, e, base).size;
    var quote := Round8(Times(size, price));
    assert GoodPosition(m, e, base);
    SellCloses(m, e, symbol, base, time, price, quote);
    RoundsTo8(Times(size, price));
    forall b | b != base ensures PositionAt(m, Sold(m, e, symbol, base, time, price, quote), b) == PositionAt(m, e, b) {
      assert PositionId(m.exchange, Some(m.edge), b) != PositionId(m.exchange, Some(m.edge), base);
    }
  }

  lemma BuyActs(m: Market, e: Engine, s: Event)
    requires s.Signal? && Sane(s) && Inv(m, e) && GoodMarket(m) && !InPosition(m, e, s.baseAsset)
    ensures BuysNew(m, e, AddStop(m, BuyWithStop(m, e, s), s.baseAsset, s.price), s)
  {
    var asked, base := Asked(m, e, s), s.baseAsset;
    var spent := Withdrawn(e.bank, asked);
    var e' := BuyWithStop(m, e, s);
    BuyOpens(m, e, s);
    WithdrawalSize(e.bank, asked);
    StopIsRounded(m, s.price);
    BoughtByDivision(spent, s.price);
    forall b | b != base ensures PositionAt(m, e', b) == PositionAt(m, e, b) {
      if spent != 0.0 {
        FillFrame(m, AddStop(m, e.(bank := Withdraw(e.bank, asked)), base, s.price), BuyOrder(m, s, spent), b);
      }
    }
  }

  lemma StepActs(m: Market, e: Engine, ev: Event)
    requires Sane(ev) && Inv(m, e) && GoodMarket(m)
    ensures Acts(m, e, ev, Step(m, e, ev))
  {
    var base := ev.baseAsset;
    match ev
    case Signal(Long, _, _, _, _) => if !InPosition(m, e, base) { BuyActs(m, e, ev); }
    case Signal(Short, symbol, _, price, time) =>
      if InPosition(m, e, base) { SoldActs(m, e, symbol, base, time, price); }
    case Candle(symbol, _, _, time) =>
      if HitsStop(m, e, ev) { SoldActs(m, e, symbol, base, time, e.stops[base]); }
  }

  lemma {:induction false} RunOneMore(m: Market, e: Engine, evs: seq<Event>, i: nat)
    requires AllSane(evs) && i < |evs|
    ensures AllSane(evs[..i + 1]) && Run(m, e, evs[..i + 1]) == Step(m, Run(m, e, evs[..i]), evs[i])
    decreases i
  {
    var first := evs[..i + 1];
    assert first[0] == evs[0] && first[1..] == evs[1..][..i];
    if i == 0 {
      assert Run(m, e, first) == Run(m, Step(m, e, evs[0]), []);
    } else {
      RunOneMore(m, Step(m, e, evs[0]), evs[1..], i - 1);
      assert evs[..i][1..] == evs[1..][..i - 1];
    }
  }

  /** Every event of every run from a fresh start acts by these rules. */
  lemma RunActs(m: Market, cash: real, facility: real, dollarLoans: bool, evs: seq<Event>, i: nat)
    requires cash >= 0.0 && facility >= 0.0 && GoodMarket(m) && AllSane(evs) && i < |evs|
    ensures var start := Start(cash, facility, dollarLoans);
            Acts(m, Run(m, start, evs[..i]), evs[i], Run(m, start, evs[..i + 1]))
  {
    var start := Start(cash, facility, dollarLoans);
    StartIsSound(m, cash, facility, dollarLoans, []);
    RunIsSafe(m, start, evs[..i], evs[i]);
    RunOneMore(m, start, evs, i);
    StepActs(m, Run(m, start, evs[..i]), evs[i]);
  }

  /** In every reachable state what is held has the stop of its entry price. */
  lemma StopsFollowEntries(m: Market, cash: real, facility: real, dollarLoans: bool, evs: seq<Event>, base: string)
    requires cash >= 0.0 && facility >= 0.0 && GoodMarket(m) && AllSane(evs)
    ensures var e := Run(m, Start(cash, facility, dollarLoans), evs);
            PositionAt(m, e, base).size > 0.0 ==>
              && base in e.stops && PositionAt(m, e, base).entry.Some?
              && Rounded(Times(PositionAt(m, e, base).entry.value.price, m.stopFactor), e.stops[base], 100000000.0)
  {
    var start := Start(cash, facility, dollarLoans);
    StartIsSound(m, cash, facility, dollarLoans, []);
    RunIsSafe(m, start, evs, Candle("", base, 0.0, 0));
    var e := Run(m, start, evs);
    assert GoodPosition(m, e, base);
    if PositionAt(m, e, base).size > 0.0 { StopIsRounded(m, PositionAt(m, e, base).entry.value.price); }
  }

  // ---------- The objects ----------

  class BacktestTradeExecution {
    const market: Market
    const bank: BacktesterCashManagement
    const store: SpotPositionsPersistence
    const contexts: OrderContextPersistence
    const tracker: SpotPositionTracker
    var stops: map<string, real>

    ghost predicate Valid()
      reads this
    {
      tracker.store == store && tracker.contexts == contexts && tracker.tooSmall == VolumeOnly
    }

    function View(): Engine
      reads this, bank, store, tracker
    {
      Engine(bank.View(), stops, store.positions, tracker.closings)
    }

    constructor (market: Market, startingCash: real, facility: real, dollarLoans: bool)
      ensures Valid() && View() == Start(startingCash, facility, dollarLoans) && this.market == market
      ensures fresh(bank) && fresh(store) && fresh(contexts) && fresh(tracker)
    {
      var s := new SpotPositionsPersistence();
      var c := new OrderContextPersistence();
      var t := new SpotPositionTracker(s, c, VolumeOnly);
      var b := new BacktesterCashManagement(startingCash, facility, dollarLoans);
      this.market, bank, store, contexts, tracker, stops := market, b, s, c, t, map[];
    }

    method PlaceStop(base: string, price: real)
      modifies this
      ensures View() == AddStop(market, old(View()), base, price)
    {
      stops := stops[base := Round8(Times(price, market.stopFactor))];
    }

    method ExecuteBuyWithStop(s: Event)
      requires Valid() && s.Signal? && s.price > 0.0
      modifies this, bank, store, contexts, tracker
      ensures View() == BuyWithStop(market, old(View()), s)
    {
      var id := Backtest(s.symbol, Buy, s.time);
      contexts.SetOrderContextForOrder(market.exchange, id, market.edge);
      var size := bank.WithdrawCash(market.sizer(View(), s.baseAsset));
      if size == 0.0 {
        return; // no cash available to take the position
      }
      var order := MakeOrder(market, s.symbol, s.baseAsset, Buy, s.time, Round8(Div(size, s.price)), size, s.price);
      PlaceStop(s.baseAsset, s.price);
      var _ := tracker.BuyOrderFilled(order);
    }

    method Sell(symbol: string, base: string, time: int, price: real, amount: real)
      requires Valid()
      modifies bank, store, contexts, tracker
      ensures View() == ExecuteSell(market, old(View()), symbol, base, time, price, amount)
    {
      var quote := Round8(Times(amount, price));
      contexts.SetOrderContextForOrder(market.exchange, Backtest(symbol, Side.Sell, time), market.edge);
      var order := MakeOrder(market, symbol, base, Side.Sell, time, amount, quote, price);
      bank.PayInCash(quote);
      tracker.SellOrderFilled(order);
    }

    /** Checks the stop of the candle's asset. What the source throws on is excluded by the invariant. */
    method IngestNewCandle(c: Event)
      requires Valid() && c.Candle? && Inv(market, View()) && GoodMarket(market)
      modifies this, bank, store, contexts, tracker
      ensures View() == CheckStop(market, old(View()), c) && Inv(market, View())
    {
      StepKeepsInv(market, View(), c);
      var id := Pid(market, c.baseAsset);
      if store.InPosition(id) {
        var stop := stops[c.baseAsset];
        if c.low <= stop {
          var amount := store.PositionSize(id);
          Sell(c.symbol, c.baseAsset, c.time, stop, amount);
          stops := stops - {c.baseAsset};
          assert !store.InPosition(id); // so "Still in position" is never thrown
        }
      }
    }

    /** A signal from the edge. */
    method PublishSignal(s: Event)
      requires Valid() && s.Signal? && Sane(s) && Inv(market, View()) && GoodMarket(market)
      modifies this, bank, store, contexts, tracker
      ensures View() == Publish(market, old(View()), s) && Inv(market, View())
    {
      StepKeepsInv(market, View(), s);
      var id := Pid(market, s.baseAsset);
      match s.direction
      case Long =>
        if !store.InPosition(id) {
          ExecuteBuyWithStop(s);
          PlaceStop(s.baseAsset, s.price);
        }
      case Short =>
        if store.InPosition(id) {
          Sell(s.symbol, s.baseAsset, s.time, s.price, store.PositionSize(id));
        }
    }
  }
}
