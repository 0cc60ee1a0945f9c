/**
 The edge58 backtest: a tracker follows one position and logs what it does, and an analyser replays the
 log. The replay rebuilds the tracker's own state.
 */
module Edge58 {
  import opened Directions
  import opened Options
  import opened Rounding

  /** What the tracker does, as it logs it. */
  datatype LogEntry =
    | Entry(direction: Direction, price: real, stop: real)
    | Increase(direction: Direction, price: real, stop: real)
    | Exit(direction: Direction, price: real, size: real)

  datatype EntrySignal = EntrySignal(
    symbol: string, direction: Direction, price: real, stop: real, enterOk: bool, addOk: bool)

  datatype Candle = Candle(high: real, low: real)

  // ---------- The tracker ----------

  datatype Tracker = Tracker(
    direction: Option<Direction>, stop: Option<real>, symbol: Option<string>, size: real, log: seq<LogEntry>)

  const NO_POSITION: Tracker := Tracker(None, None, None, 0.0, [])

  function StopOut(t: Tracker): Tracker
    requires t.direction.Some? && t.stop.Some?
  {
    Tracker(None, None, None, 0.0, t.log + [Exit(t.direction.value, t.stop.value, t.size)])
  }

  function EnterOrAdd(fixed: real, t: Tracker, s: EntrySignal): Tracker
    requires s.price != 0.0
  {
    match t.direction
    case Some(d) =>
      if d != s.direction || !s.addOk then t
      else t.(stop := Some(s.stop), size := t.size + Div(fixed, s.price), log := t.log + [Increase(d, s.price, s.stop)])
    case None =>
      if !s.enterOk then t
      else
        var log := t.log + [Entry(s.direction, s.price, s.stop)];
        Tracker(Some(s.direction), Some(s.stop), Some(s.symbol), Div(fixed, s.price), log)
  }

  predicate HitsStop(t: Tracker, c: Candle) {
    t.direction.Some? && t.stop.Some? &&
    if t.direction.value == Long then c.low <= t.stop.value else c.high >= t.stop.value
  }

  /** One candle: first the stop, then the signal the edge gives on it, if any. */
  function OnCandle(fixed: real, t: Tracker, c: Candle, s: Option<EntrySignal>): Tracker
    requires s.Some? ==> s.value.price != 0.0
  {
    var u := if HitsStop(t, c) then StopOut(t) else t;
    if s.Some? then EnterOrAdd(fixed, u, s.value) else u
  }

  datatype Tick = Tick(candle: Candle, signal: Option<EntrySignal>)

  predicate Priced(ts: seq<Tick>) {
    forall i :: 0 <= i < |ts| && ts[i].signal.Some? ==> ts[i].signal.value.price > 0.0
  }

  function Track(fixed: real, ts: seq<Tick>): Tracker
    requires Priced(ts)
    decreases |ts|
  {
    if ts == [] then NO_POSITION
    else
      var last := ts[|ts| - 1];
      OnCandle(fixed, Track(fixed, ts[..|ts| - 1]), last.candle, last.signal)
  }

  // ---------- The analyser ----------

  datatype Trade = Trade(invested: real, size: real)

  datatype Analysis = Analysis(trade: Option<Trade>, capital: real, profit: real)

  /** One log entry; none where the source throws for not being in a position. */
  function Analyse(fixed: real, a: Analysis, x: LogEntry): Option<Analysis>
    requires x.Exit? || x.price != 0.0
  {
    var next :=
      match x
      case Entry(_, price, _) => Some(a.(trade := Some(Trade(fixed, Div(fixed, price)))))
      case Increase(_, price, _) =>
        if a.trade.None? then None
        else Some(a.(trade := Some(Trade(a.trade.value.invested + fixed, a.trade.value.size + Div(fixed, price)))))
      case Exit(_, price, _) =>
        if a.trade.None? then None
        else Some(a.(trade := None, profit := a.profit + (Times(a.trade.value.size, price) - a.trade.value.invested)));
    if next.Some? && next.value.trade.Some? then
      Some(next.value.(capital := Max(next.value.capital, next.value.trade.value.invested)))
    else next
  }

  predicate PricedLog(log: seq<LogEntry>) {
    forall i :: 0 <= i < |log| ==> log[i].Exit? || log[i].price != 0.0
  }

  function Replay(fixed: real, log: seq<LogEntry>): Option<Analysis>
    requires PricedLog(log)
    decreases |log|
  {
    if log == [] then Some(Analysis(None, 0.0, 0.0))
    else
      match Replay(fixed, log[..|log| - 1])
      case None => None
      case Some(a) => Analyse(fixed, a, log[|log| - 1])
  }

  // ---------- The shape of the log ----------

  /** Entries and increases since the last exit: the length of the trade that is open at the end. */
  function OpenCount(log: seq<LogEntry>): nat
    decreases |log|
  {
    if log == [] || log[|log| - 1].Exit? then 0 else OpenCount(log[..|log| - 1]) + 1
  }

  /** The most entries and increases any trade of the log was built from. */
  function LongestTrade(log: seq<LogEntry>): nat
    decreases |log|
  {
    if log == [] then 0
    else
      var before, open := LongestTrade(log[..|log| - 1]), OpenCount(log);
      if open > before then open else before
  }

  /** An exit's size at its price, less the fixed amount for every entry and increase of its trade. */
  function ExitValue(fixed: real, front: seq<LogEntry>, x: LogEntry): real
    requires x.Exit?
  {
    Times(x.size, x.price) - Times(fixed, OpenCount(front) as real)
  }

  /** The profit the analyser's formula gives for the sizes logged, which takes no notice of direction. */
  function LoggedProfit(fixed: real, log: seq<LogEntry>): real
    decreases |log|
  {
    if log == [] then 0.0
    else
      var front, last := log[..|log| - 1], log[|log| - 1];
      LoggedProfit(fixed, front) + if last.Exit? then ExitValue(fixed, front, last) else 0.0
  }

  /** What the trades made: a short gains what its exit costs less than its entries brought. */
  function MadeProfit(fixed: real, log: seq<LogEntry>): real
    decreases |log|
  {
    if log == [] then 0.0
    else
      var front, last := log[..|log| - 1], log[|log| - 1];
      MadeProfit(fixed, front)
      + if !last.Exit? then 0.0
        else if last.direction == Long then ExitValue(fixed, front, last)
        else -ExitValue(fixed, front, last)
  }

  /** What all short trades together lost. */
  function ShortLoss(fixed: real, log: seq<LogEntry>): real
    decreases |log|
  {
    if log == [] then 0.0
    else
      var front, last := log[..|log| - 1], log[|log| - 1];
      ShortLoss(fixed, front) + if last.Exit? && last.direction == Short then ExitValue(fixed, front, last) else 0.0
  }

  /** An entry starts the log or follows an exit; anything else continues the trade before it. */
  ghost predicate Placed(log: seq<LogEntry>, i: nat)
    requires i < |log|
  {
    if log[i].Entry? then i == 0 || log[i - 1].Exit?
    else i > 0 && !log[i - 1].Exit? && log[i].direction == log[i - 1].direction
  }

  /** (Entry Increase* Exit)* with at most one unfinished trade, every trade in one direction. */
  ghost predicate Alternates(log: seq<LogEntry>) {
    forall i :: 0 <= i < |log| ==> Placed(log, i)
  }

  /** The log says what the tracker holds: its direction and stop, and whether it is in a position. */
  ghost predicate LogTells(t: Tracker) {
    && Alternates(t.log) && PricedLog(t.log)
    && (t.direction.Some? <==> t.stop.Some?) && (t.direction.Some? <==> t.symbol.Some?)
    && (t.direction.Some? <==> t.log != [] && !t.log[|t.log| - 1].Exit?)
    && (t.direction.Some? ==>
          t.log[|t.log| - 1].direction == t.direction.value && t.log[|t.log| - 1].stop == t.stop.value)
    && (t.direction.None? ==> t.size == 0.0)
  }

  /**
   The replay so far has the tracker's position, all of it paid for, the most ever invested, and the
   profit that follows from the sizes the tracker logged.
   */
  ghost predicate Rebuilt(fixed: real, t: Tracker)
    requires PricedLog(t.log)
  {
    var r := Replay(fixed, t.log);
    && r.Some?
    && (r.value.trade.Some? <==> t.direction.Some?)
    && (r.value.trade.Some? ==>
          r.value.trade.value == Trade(Times(fixed, OpenCount(t.log) as real), t.size))
    && r.value.capital == Times(fixed, LongestTrade(t.log) as real)
    && r.value.profit == LoggedProfit(fixed, t.log)
  }

  lemma Logged(t: Tracker, x: LogEntry)
    requires LogTells(t) && (x.Exit? || x.price != 0.0)
    requires if x.Entry? then t.direction.None? else t.direction == Some(x.direction)
    ensures Alternates(t.log + [x]) && PricedLog(t.log + [x])
  {
    var log := t.log + [x];
    forall i | 0 <= i < |log| ensures Placed(log, i) {
      assert i < |t.log| ==> Placed(t.log, i);
    }
    forall i | 0 <= i < |log| ensures log[i].Exit? || log[i].price != 0.0 {
      assert i < |t.log| ==> log[i] == t.log[i];
    }
  }

  lemma ReplayOne(fixed: real, log: seq<LogEntry>, x: LogEntry)
    requires PricedLog(log) && (x.Exit? || x.price != 0.0)
    ensures PricedLog(log + [x])
    ensures Replay(fixed, log + [x])
        == (match Replay(fixed, log) case None => None case Some(a) => Analyse(fixed, a, x))
    ensures OpenCount(log + [x]) == (if x.Exit? then 0 else OpenCount(log) + 1)
    ensures var open := OpenCount(log + [x]);
            LongestTrade(log + [x]) == if open > LongestTrade(log) then open else LongestTrade(log)
    ensures LoggedProfit(fixed, log + [x]) == LoggedProfit(fixed, log)
            + if x.Exit? then ExitValue(fixed, log, x) else 0.0
  {
    assert (log + [x])[..|log|] == log;
  }

  lemma CountTimes(fixed: real, a: nat)
    ensures Times(fixed, (a + 1) as real) == Times(fixed, a as real) + fixed
    ensures Times(fixed, 0.0) == 0.0 && Times(fixed, 1.0) == fixed
  {
  }

  lemma LongerCostsMore(fixed: real, a: nat, b: nat)
    requires fixed >= 0.0
    ensures Max(Times(fixed, a as real), Times(fixed, b as real)) == Times(fixed, (if b > a then b else a) as real)
  {
    if a > b {
      assert Times(fixed, a as real) - Times(fixed, b as real) == Times(fixed, (a - b) as real) >= 0.0;
    } else {
      assert Times(fixed, b as real) - Times(fixed, a as real) == Times(fixed, (b - a) as real) >= 0.0;
    }
  }

  lemma StopOutKeeps(fixed: real, t: Tracker)
    requires fixed >= 0.0 && LogTells(t) && Rebuilt(fixed, t) && t.direction.Some?
    ensures LogTells(StopOut(t)) && Rebuilt(fixed, StopOut(t))
  {
    var x := Exit(t.direction.value, t.stop.value, t.size);
    Logged(t, x);
    ReplayOne(fixed, t.log, x);
  }

  /** What one more entry does to the replay, in terms of how many there were before. */
  lemma EntryReplayed(fixed: real, t: Tracker, x: LogEntry)
    requires fixed >= 0.0 && LogTells(t) && Rebuilt(fixed, t)
    requires !x.Exit? && x.price != 0.0
    requires if x.Entry? then t.direction.None? else t.direction.Some?
    ensures PricedLog(t.log + [x])
    ensures var r := Replay(fixed, t.log + [x]);
            && r.Some?
            && r.value.trade == Some(Trade(Times(fixed, OpenCount(t.log + [x]) as real), t.size + Div(fixed, x.price)))
            && r.value.capital == Times(fixed, LongestTrade(t.log + [x]) as real)
            && r.value.profit == LoggedProfit(fixed, t.log + [x])
  {
    ReplayOne(fixed, t.log, x);
    CountTimes(fixed, OpenCount(t.log));
    LongerCostsMore(fixed, LongestTrade(t.log), OpenCount(t.log) + 1);
  }

  lemma EnterOrAddKeeps(fixed: real, t: Tracker, s: EntrySignal)
    requires fixed >= 0.0 && s.price > 0.0 && LogTells(t) && Rebuilt(fixed, t)
    ensures LogTells(EnterOrAdd(fixed, t, s)) && Rebuilt(fixed, EnterOrAdd(fixed, t, s))
  {
    var u := EnterOrAdd(fixed, t, s);
    if u != t {
      var x := u.log[|t.log|];
      assert u.log == t.log + [x];
      Logged(t, x);
      EntryReplayed(fixed, t, x);
    }
  }

  /**
   For any candles and signals the log is well formed and tells the tracker's state, the replay of it
   never fails, its open trade has the tracker's size, the capital it reports is the fixed amount times
   the number of entries of the longest trade, and its profit is the formula's for the logged exits.
   */
  lemma {:induction false} ReplayRebuilds(fixed: real, ts: seq<Tick>)
    requires fixed >= 0.0 && Priced(ts)
    ensures LogTells(Track(fixed, ts)) && Rebuilt(fixed, Track(fixed, ts))
    decreases |ts|
  {
    if ts == [] {
      CountTimes(fixed, 0);
    } else {
      var front, last := ts[..|ts| - 1], ts[|ts| - 1];
      ReplayRebuilds(fixed, front);
      var t := Track(fixed, front);
      var u := if HitsStop(t, last.candle) then StopOut(t) else t;
      if HitsStop(t, last.candle) { StopOutKeeps(fixed, t); }
      if last.signal.Some? { EnterOrAddKeeps(fixed, u, last.signal.value); }
    }
  }

  // ---------- The log, told by itself ----------

  /** The trade left open at the end of a log, if any. */
  ghost predicate Open(log: seq<LogEntry>) {
    log != [] && !log[|log| - 1].Exit?
  }

  /** A candle reaches the stop that the last entry of an open trade set: a long's from above, a short's from below. */
  ghost predicate ReachesStop(log: seq<LogEntry>, c: Candle) {
    && Open(log)
    && if log[|log| - 1].direction == Long then c.low <= log[|log| - 1].stop else c.high >= log[|log| - 1].stop
  }

  /** What the entries of the open trade bought, the fixed amount for each at its price. */
  ghost function BoughtSince(fixed: real, log: seq<LogEntry>): real
    requires PricedLog(log)
    decreases |log|
  {
    if !Open(log) then 0.0 else BoughtSince(fixed, log[..|log| - 1]) + Div(fixed, log[|log| - 1].price)
  }

  /** The log after the stop check: with an exit at the stop, of all that was bought, if the candle reaches it. */
  ghost function Stopped(fixed: real, log: seq<LogEntry>, c: Candle): seq<LogEntry>
    requires PricedLog(log)
  {
    if ReachesStop(log, c) then
      log + [Exit(log[|log| - 1].direction, log[|log| - 1].stop, BoughtSince(fixed, log))]
    else log
  }

  /** And after the signal: an increase in the open trade's direction, or an entry, where its filter allows it. */
  ghost function Signalled(log: seq<LogEntry>, signal: Option<EntrySignal>): seq<LogEntry> {
    match signal
    case None => log
    case Some(s) =>
      if Open(log) then
        if s.addOk && s.direction == log[|log| - 1].direction then log + [Increase(s.direction, s.price, s.stop)]
        else log
      else if s.enterOk then log + [Entry(s.direction, s.price, s.stop)]
      else log
  }

  /** The tracker holds what its open trade bought. */
  ghost predicate HoldsBought(fixed: real, t: Tracker) {
    LogTells(t) && t.size == BoughtSince(fixed, t.log)
  }

  lemma BoughtOneMore(fixed: real, log: seq<LogEntry>, x: LogEntry)
    requires PricedLog(log) && (x.Exit? || x.price != 0.0)
    ensures PricedLog(log + [x])
    ensures BoughtSince(fixed, log + [x]) == if x.Exit? then 0.0 else BoughtSince(fixed, log) + Div(fixed, x.price)
  {
    assert (log + [x])[..|log|] == log;
  }

  lemma StopsByLog(fixed: real, t: Tracker, c: Candle)
    requires HoldsBought(fixed, t)
    ensures HitsStop(t, c) <==> ReachesStop(t.log, c)
    ensures HitsStop(t, c) ==> StopOut(t).log == Stopped(fixed, t.log, c) && HoldsBought(fixed, StopOut(t))
  {
    if HitsStop(t, c) {
      var x := Exit(t.direction.value, t.stop.value, t.size);
      Logged(t, x);
      BoughtOneMore(fixed, t.log, x);
    }
  }

  lemma AddsByLog(fixed: real, t: Tracker, s: EntrySignal)
    requires HoldsBought(fixed, t) && s.price > 0.0 && t.direction.Some?
    ensures EnterOrAdd(fixed, t, s).log == Signalled(t.log, Some(s)) && HoldsBought(fixed, EnterOrAdd(fixed, t, s))
  {
    if t.direction == Some(s.direction) && s.addOk {
      var x := Increase(s.direction, s.price, s.stop);
      Logged(t, x);
      BoughtOneMore(fixed, t.log, x);
    }
  }

  lemma EntersByLog(fixed: real, t: Tracker, s: EntrySignal)
    requires HoldsBought(fixed, t) && s.price > 0.0 && t.direction.None?
    ensures EnterOrAdd(fixed, t, s).log == Signalled(t.log, Some(s)) && HoldsBought(fixed, EnterOrAdd(fixed, t, s))
  {
    if s.enterOk {
      var x := Entry(s.direction, s.price, s.stop);
      Logged(t, x);
      BoughtOneMore(fixed, t.log, x);
    }
  }

  /**
   What each candle of a run adds to the log, by the log alone: an exit exactly when it reaches the open trade's
   stop, at that stop, and then what the signal and its filters allow.
   */
  lemma {:induction false} LogFollows(fixed: real, ts: seq<Tick>)
    requires Priced(ts)
    ensures HoldsBought(fixed, Track(fixed, ts))
    ensures ts != [] ==>
      var front, last := ts[..|ts| - 1], ts[|ts| - 1];
      && PricedLog(Track(fixed, front).log)
      && Track(fixed, ts).log == Signalled(Stopped(fixed, Track(fixed, front).log, last.candle), last.signal)
    decreases |ts|
  {
    if ts != [] {
      var front, last := ts[..|ts| - 1], ts[|ts| - 1];
      LogFollows(fixed, front);
      var t := Track(fixed, front);
      var u := if HitsStop(t, last.candle) then StopOut(t) else t;
      StopsByLog(fixed, t, last.candle);
      if last.signal.Some? {
        if u.direction.Some? {
          AddsByLog(fixed, u, last.signal.value);
        } else {
          EntersByLog(fixed, u, last.signal.value);
        }
      }
    }
  }

  /** The profit reported is too high by twice what the short trades lost. */
  lemma {:induction false} ShortLossCountsTwice(fixed: real, log: seq<LogEntry>)
    ensures LoggedProfit(fixed, log) == MadeProfit(fixed, log) + 2.0 * ShortLoss(fixed, log)
    decreases |log|
  {
    if log != [] { ShortLossCountsTwice(fixed, log[..|log| - 1]); }
  }

  /** The analyser follows the log up to any of its entries and then reports this profit. */
  ghost predicate Reports(fixed: real, log: seq<LogEntry>, profit: real) {
    PricedLog(log) && Replay(fixed, log).Some? && Replay(fixed, log).value.profit == profit
  }

  ghost predicate ReportsThroughout(fixed: real, log: seq<LogEntry>) {
    forall j :: 0 <= j <= |log| ==> Reports(fixed, log[..j], LoggedProfit(fixed, log[..j]))
  }

  lemma ReportsOneMore(fixed: real, log: seq<LogEntry>, more: seq<LogEntry>, x: LogEntry)
    requires ReportsThroughout(fixed, log) && more == log + [x] && Reports(fixed, more, LoggedProfit(fixed, more))
    ensures ReportsThroughout(fixed, more)
  {
    forall j | 0 <= j <= |more| ensures Reports(fixed, more[..j], LoggedProfit(fixed, more[..j])) {
      if j == |more| {
        assert more[..j] == more;
      } else {
        assert more[..j] == log[..j];
      }
    }
  }

  lemma StopOutReports(fixed: real, t: Tracker)
    requires fixed >= 0.0 && LogTells(t) && Rebuilt(fixed, t) && t.direction.Some? && ReportsThroughout(fixed, t.log)
    ensures ReportsThroughout(fixed, StopOut(t).log)
  {
    StopOutKeeps(fixed, t);
    ReportsOneMore(fixed, t.log, StopOut(t).log, Exit(t.direction.value, t.stop.value, t.size));
  }

  lemma EnterOrAddReports(fixed: real, t: Tracker, s: EntrySignal)
    requires fixed >= 0.0 && s.price > 0.0 && LogTells(t) && Rebuilt(fixed, t) && ReportsThroughout(fixed, t.log)
    ensures ReportsThroughout(fixed, EnterOrAdd(fixed, t, s).log)
  {
    var u := EnterOrAdd(fixed, t, s);
    if u != t {
      EnterOrAddKeeps(fixed, t, s);
      var x := if t.direction.Some? then Increase(t.direction.value, s.price, s.stop)
               else Entry(s.direction, s.price, s.stop);
      ReportsOneMore(fixed, t.log, u.log, x);
    }
  }

  lemma {:induction false} ProfitThroughout(fixed: real, ts: seq<Tick>)
    requires fixed >= 0.0 && Priced(ts)
    ensures ReportsThroughout(fixed, Track(fixed, ts).log)
    decreases |ts|
  {
    if ts == [] {
      assert ReportsThroughout(fixed, []);
    } else {
      var front, last := ts[..|ts| - 1], ts[|ts| - 1];
      var t := Track(fixed, front);
      var u := if HitsStop(t, last.candle) then StopOut(t) else t;
      ProfitThroughout(fixed, front);
      ReplayRebuilds(fixed, front);
      if HitsStop(t, last.candle) {
        StopOutKeeps(fixed, t);
        StopOutReports(fixed, t);
      }
      if last.signal.Some? { EnterOrAddReports(fixed, u, last.signal.value); }
    }
  }

  /** Entry i closes a short trade on which money was made or lost. */
  ghost predicate MovesShort(fixed: real, log: seq<LogEntry>, i: nat)
    requires i < |log|
  {
    log[i].Exit? && log[i].direction == Short && ExitValue(fixed, log[..i], log[i]) != 0.0
  }

  ghost predicate NoMovingShort(fixed: real, log: seq<LogEntry>) {
    forall i :: 0 <= i < |log| ==> !MovesShort(fixed, log, i)
  }

  ghost predicate LossNeverCounts(fixed: real, log: seq<LogEntry>) {
    forall j :: 0 <= j <= |log| ==> ShortLoss(fixed, log[..j]) == 0.0
  }

  lemma {:induction false} NeverCountsExactly(fixed: real, log: seq<LogEntry>)
    ensures LossNeverCounts(fixed, log) <==> NoMovingShort(fixed, log)
    decreases |log|
  {
    if log != [] {
      var front, n := log[..|log| - 1], |log| - 1;
      NeverCountsExactly(fixed, front);
      LastMove(fixed, log);
      LastLoss(fixed, log);
      assert front[..n] == front;
    }
  }

  lemma LastMove(fixed: real, log: seq<LogEntry>)
    requires log != []
    ensures NoMovingShort(fixed, log) <==> NoMovingShort(fixed, log[..|log| - 1]) && !MovesShort(fixed, log, |log| - 1)
  {
    var front := log[..|log| - 1];
    forall i | 0 <= i < |front| ensures MovesShort(fixed, front, i) == MovesShort(fixed, log, i) {
      assert front[..i] == log[..i];
    }
  }

  lemma LastLoss(fixed: real, log: seq<LogEntry>)
    requires log != []
    ensures LossNeverCounts(fixed, log) <==> LossNeverCounts(fixed, log[..|log| - 1]) && ShortLoss(fixed, log) == 0.0
  {
    var front := log[..|log| - 1];
    assert forall j :: 0 <= j <= |front| ==> front[..j] == log[..j];
    assert log[..|log|] == log;
  }

  /**
   After every event of every run the analyser reports what the trades made exactly when each short that was
   closed broke even.
   */
  lemma ShortsAreMisreported(fixed: real, ts: seq<Tick>)
    requires fixed >= 0.0 && Priced(ts)
    ensures var log := Track(fixed, ts).log;
            (forall j :: 0 <= j <= |log| ==> Reports(fixed, log[..j], MadeProfit(fixed, log[..j])))
            <==> NoMovingShort(fixed, log)
  {
    var log := Track(fixed, ts).log;
    ProfitThroughout(fixed, ts);
    NeverCountsExactly(fixed, log);
    forall j | 0 <= j <= |log|
      ensures Reports(fixed, log[..j], MadeProfit(fixed, log[..j])) <==> ShortLoss(fixed, log[..j]) == 0.0
    {
      assert Reports(fixed, log[..j], LoggedProfit(fixed, log[..j]));
      ShortLossCountsTwice(fixed, log[..j]);
    }
  }

  /** A short entered with 300 at 100 and stopped out at 110 loses 30, and 30 of profit is reported. */
  lemma ShortStoppedOut()
    ensures var log := [Entry(Short, 100.0, 110.0), Exit(Short, 110.0, 3.0)];
            MadeProfit(300.0, log) == -30.0 && LoggedProfit(300.0, log) == 30.0
  {
    var log := [Entry(Short, 100.0, 110.0), Exit(Short, 110.0, 3.0)];
    var front := log[..1];
    assert front[..0] == [];
    assert OpenCount(front) == 1;
    assert ExitValue(300.0, front, log[1]) == 30.0;
    assert MadeProfit(300.0, front) == 0.0 && LoggedProfit(300.0, front) == 0.0;
  }

  // ---------- The objects ----------

  class PositionTracker {
    const fixed: real
    var symbol: Option<string>
    var size: real
    var direction: Option<Direction>
    var stop: Option<real>
    var events: seq<LogEntry>

    ghost function View(): Tracker
      reads this
    {
      Tracker(direction, stop, symbol, size, events)
    }

    constructor (fixed: real)
      ensures View() == NO_POSITION && this.fixed == fixed
    {
      this.fixed := fixed;
      symbol, size, direction, stop, events := None, 0.0, None, None, [];
    }

    /** False where the source throws: direction, stop or symbol missing. */
    method StoppedOut() returns (ok: bool)
      modifies this
      ensures ok <==> old(direction.Some? && stop.Some? && symbol.Some?)
      ensures View() == if ok then StopOut(old(View())) else old(View())
    {
      if direction.None? || stop.None? || symbol.None? {
        return false;
      }
      var event := Exit(direction.value, stop.value, size);
      size := 0.0;
      direction := None;
      stop := None;
      symbol := None;
      events := events + [event];
      return true;
    }

    method EnterOrAddToPosition(s: EntrySignal)
      requires s.price != 0.0
      modifies this
      ensures View() == EnterOrAdd(fixed, old(View()), s)
    {
      if direction.Some? {
        if direction.value != s.direction {
          return; // wait to be stopped out
        }
        if s.addOk {
          events := events + [Increase(s.direction, s.price, s.stop)];
          stop := Some(s.stop);
          size := size + Div(fixed, s.price);
        }
      } else if s.enterOk {
        events := events + [Entry(s.direction, s.price, s.stop)];
        stop := Some(s.stop);
        direction := Some(s.direction);
        symbol := Some(s.symbol);
        size := Div(fixed, s.price);
      }
    }
  }

  class OpenTrade {
    var invested: real
    var size: real

    constructor (amount: real, price: real)
      requires price != 0.0
      ensures invested == amount && size == Div(amount, price)
    {
      invested, size := amount, Div(amount, price);
    }

    method AddToPosition(amount: real, price: real)
      requires price != 0.0
      modifies this
      ensures invested == old(invested) + amount && size == old(size) + Div(amount, price)
    {
      invested := invested + amount;
      size := size + Div(amount, price);
    }
  }

  class PositionEventLogAnalyser {
    const fixed: real
    const events: seq<LogEntry>
    var trade: OpenTrade?
    var capital: real
    var profit: real

    ghost function View(): Analysis
      reads this, trade
    {
      Analysis(if trade == null then None else Some(Trade(trade.invested, trade.size)), capital, profit)
    }

    constructor (fixed: real, events: seq<LogEntry>)
      ensures this.fixed == fixed && this.events == events && View() == Analysis(None, 0.0, 0.0) && trade == null
    {
      this.fixed, this.events := fixed, events;
      trade, capital, profit := null, 0.0, 0.0;
    }

    /** False where the source throws "Not in position". */
    method Run() returns (ok: bool)
      requires PricedLog(events) && trade == null && View() == Analysis(None, 0.0, 0.0)
      modifies this
      ensures ok <==> Replay(fixed, events).Some?
      ensures ok ==> View() == Replay(fixed, events).value
    {
      var i := 0;
      assert events[..0] == [];
      while i < |events|
        invariant 0 <= i <= |events| && (trade != null ==> fresh(trade))
        invariant Replay(fixed, events[..i]) == Some(View())
      {
        ghost var a := View();
        var x := events[i];
        ReplayNext(fixed, events, i);
        match x {
          case Entry(_, price, _) =>
            trade := new OpenTrade(fixed, price);
          case Increase(_, price, _) =>
            if trade == null {
              StaysFailed(fixed, events, i + 1);
              return false;
            }
            trade.AddToPosition(fixed, price);
          case Exit(_, price, _) =>
            if trade == null {
              StaysFailed(fixed, events, i + 1);
              return false;
            }
            profit := profit + (Times(trade.size, price) - trade.invested);
            trade := null;
        }
        if trade != null {
          capital := Max(capital, trade.invested);
        }
        i := i + 1;
      }
      assert events[..i] == events;
      return true;
    }

    static lemma ReplayNext(fixed: real, log: seq<LogEntry>, i: nat)
      requires i < |log| && PricedLog(log)
      ensures Replay(fixed, log[..i + 1])
          == (match Replay(fixed, log[..i]) case None => None case Some(a) => Analyse(fixed, a, log[i]))
    {
      assert log[..i + 1] == log[..i] + [log[i]];
      ReplayOne(fixed, log[..i], log[i]);
    }

    static lemma {:induction false} StaysFailed(fixed: real, log: seq<LogEntry>, i: nat)
      requires PricedLog(log) && i <= |log| && Replay(fixed, log[..i]).None?
      ensures Replay(fixed, log).None?
      decreases |log| - i
    {
      if i == |log| {
        assert log[..i] == log;
      } else {
        assert log[..i + 1][..i] == log[..i];
        StaysFailed(fixed, log, i + 1);
      }
    }
  }

  class Edge58Backtester {
    const fixed: real
    const tracker: PositionTracker

    constructor (fixed: real)
      ensures this.fixed == fixed && tracker.fixed == fixed && fresh(tracker) && tracker.View() == NO_POSITION
    {
      this.fixed := fixed;
      var t := new PositionTracker(fixed);
      tracker := t;
    }

    /** The signal of each candle is what the edge answers when the candle is fed to it. */
    method RunCandles(ts: seq<Tick>) returns (ok: bool, analyser: PositionEventLogAnalyser)
      requires Priced(ts) && fixed >= 0.0 && tracker.fixed == fixed && tracker.View() == NO_POSITION
      modifies tracker
      ensures tracker.View() == Track(fixed, ts) && PricedLog(tracker.events)
      ensures ok && Replay(fixed, tracker.events) == Some(analyser.View())
      ensures analyser.trade != null ==> analyser.trade.size == tracker.size
      ensures analyser.capital == Times(fixed, LongestTrade(tracker.events) as real)
      ensures analyser.profit == LoggedProfit(fixed, tracker.events)
    {
      var i := 0;
      while i < |ts|
        invariant 0 <= i <= |ts| && tracker.View() == Track(fixed, ts[..i])
      {
        ghost var t := tracker.View();
        ReplayRebuilds(fixed, ts[..i]);
        var c := ts[i].candle;
        assert ts[..i + 1][..i] == ts[..i];
        if tracker.direction == Some(Long) {
          if c.low <= tracker.stop.value {
            var _ := tracker.StoppedOut();
          }
        }
        if tracker.direction == Some(Short) {
          if c.high >= tracker.stop.value {
            var _ := tracker.StoppedOut();
          }
        }
        if ts[i].signal.Some? {
          tracker.EnterOrAddToPosition(ts[i].signal.value);
        }
        i := i + 1;
      }
      assert ts[..i] == ts;
      ReplayRebuilds(fixed, ts);
      analyser := new PositionEventLogAnalyser(fixed, tracker.events);
      ok := analyser.Run();
    }
  }
}
