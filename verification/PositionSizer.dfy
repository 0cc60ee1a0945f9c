/**
 How much to buy so that being stopped out loses no more than an allowed share of the portfolio. Divisions
 round at 20 places, so the bound holds up to terms in half a unit of the 20th place.
 */
module PositionSizer {
  import opened Options
  import opened Rounding
  import SpotPortfolio

  type Balance = SpotPortfolio.Balance

  type Prices = SpotPortfolio.Prices

  /** A BigNumber result that may have divided by zero. */
  datatype Amount = Number(value: real) | Infinity | NotANumber

  datatype TradingRules = TradingRules(
    maxLossPercentage: real, maxPercentagePerTrade: Option<real>, withoutStopAllowed: bool)

  datatype Sized = Sized(quoteVolume: real, baseAmount: real)

  datatype Order = Order(buy: real, stop: Option<real>, quote: string, maxQuote: Option<real>, noAutoSize: bool)

  // ---------- The portfolio ----------

  function Available(bs: seq<Balance>, quote: string): real
    decreases |bs|
  {
    if bs == [] then 0.0
    else
      var last := bs[|bs| - 1];
      Available(bs[..|bs| - 1], quote) + if last.asset == quote then last.free else 0.0
  }

  /** What a balance is worth in the quote currency; nothing without a price. */
  function Worth(b: Balance, quote: string, prices: Prices): real {
    if b.asset == quote then b.free + b.locked
    else if b.asset + quote in prices then Times(b.free + b.locked, prices[b.asset + quote])
    else 0.0
  }

  function Total(bs: seq<Balance>, quote: string, prices: Prices): real
    decreases |bs|
  {
    if bs == [] then 0.0 else Total(bs[..|bs| - 1], quote, prices) + Worth(bs[|bs| - 1], quote, prices)
  }

  ghost predicate NonNegative(bs: seq<Balance>, prices: Prices) {
    && (forall i :: 0 <= i < |bs| ==> bs[i].free >= 0.0 && bs[i].locked >= 0.0)
    && (forall pair :: pair in prices ==> prices[pair] >= 0.0)
  }

  lemma {:induction false} AvailableIsPart(bs: seq<Balance>, quote: string, prices: Prices)
    requires NonNegative(bs, prices)
    ensures 0.0 <= Available(bs, quote) <= Total(bs, quote, prices)
    decreases |bs|
  {
    if bs != [] {
      AvailableIsPart(bs[..|bs| - 1], quote, prices);
      var b := bs[|bs| - 1];
      assert b.asset + quote in prices ==> Times(b.free + b.locked, prices[b.asset + quote]) >= 0.0;
    }
  }

  // ---------- Sizing ----------

  function Divide(x: real, y: real): Amount {
    if y != 0.0 then Number(Div(x, y)) else if x > 0.0 then Infinity else NotANumber
  }

  function Least(a: Amount, b: real): Amount {
    match a
    case Number(v) => Number(Min(v, b))
    case Infinity => Number(b)
    case NotANumber => NotANumber
  }

  function Scaled(a: Amount, factor: real): Amount {
    match a
    case Number(v) => Number(Times(v, factor))
    case Infinity => if factor == 0.0 then NotANumber else Infinity
    case NotANumber => NotANumber
  }

  function StopPercentage(buy: real, stop: real): real
    requires buy > 0.0
  {
    Times(Div(buy - stop, buy), 100.0)
  }

  function AllowedByStop(rules: TradingRules, buy: real, stop: real): Amount
    requires buy > 0.0
  {
    Scaled(Divide(rules.maxLossPercentage, StopPercentage(buy, stop)), 100.0)
  }

  function AllowedPercentage(rules: TradingRules, o: Order): Amount
    requires o.buy > 0.0
  {
    var allowed := if o.noAutoSize || o.stop.None? then Number(100.0) else AllowedByStop(rules, o.buy, o.stop.value);
    if rules.maxPercentagePerTrade.Some? then Least(allowed, rules.maxPercentagePerTrade.value) else allowed
  }

  function AutoSized(allowed: Amount, available: real, total: real): Amount {
    var cap := Scaled(allowed, total);
    Least(if cap.Number? then Number(Div(cap.value, 100.0)) else cap, available)
  }

  function BaseVolume(quoteVolume: real, price: real): real
    requires price > 0.0
  {
    Truncate8(Div(quoteVolume, price))
  }

  /** None where the source throws: no stop when the rules demand one, or no finite amount. */
  function Size(rules: TradingRules, o: Order, available: real, total: real): Option<Sized>
    requires o.buy > 0.0
  {
    if !rules.withoutStopAllowed && o.stop.None? then None
    else
      var auto := AutoSized(AllowedPercentage(rules, o), available, total);
      var volume := if o.maxQuote.Some? then Least(auto, o.maxQuote.value) else auto;
      if !volume.Number? then None
      else Some(Sized(volume.value, BaseVolume(volume.value, o.buy)))
  }

  // ---------- What a sized position respects ----------

  /** Every bound at once: the balance, the caller's maximum, and the cap on one trade. */
  lemma VolumeIsBounded(rules: TradingRules, o: Order, available: real, total: real)
    requires o.buy > 0.0 && total >= 0.0 && Size(rules, o, available, total).Some?
    ensures var volume := Size(rules, o, available, total).value.quoteVolume;
            && volume <= available
            && (o.maxQuote.Some? ==> volume <= o.maxQuote.value)
            && (rules.maxPercentagePerTrade.Some? ==>
                  volume <= Times(rules.maxPercentagePerTrade.value, total) / 100.0 + HALF_UNIT_20)
  {
    if rules.maxPercentagePerTrade.Some? {
      var allowed := AllowedPercentage(rules, o);
      var cap := rules.maxPercentagePerTrade.value;
      if allowed.Number? {
        TimesGrows(allowed.value, cap, total);
      }
    }
  }

  /** The share of the price that is lost between buying and the stop. */
  function LossShare(buy: real, stop: real): real
    requires buy > 0.0
  {
    (buy - stop) / buy
  }

  lemma ShareOfRounded(l: real, p: real, f: real, h: real)
    requires l >= 0.0 && p > 0.0 && h >= 0.0 && 0.0 <= f <= p + h
    ensures Times(l / Times(p, 100.0), f) <= Times(l / 100.0, 1.0 + h / p)
  {
    var c := l / Times(p, 100.0);
    assert Times(c, p) == l / 100.0;
    assert Times(c, h) == Times(l / 100.0, h / p);
    assert c >= 0.0;
    TimesGrows(f, p + h, c);
    assert Times(f, c) == Times(c, f);
    assert Times(p + h, c) == Times(c, p) + Times(c, h);
    assert Times(l / 100.0, 1.0 + h / p) == l / 100.0 + Times(l / 100.0, h / p);
  }

  /** Each of the two divisions adds at most half a unit of the 20th place. */
  lemma CapIsNear(l: real, p: real, total: real)
    requires l >= 0.0 && p > 0.0 && total >= 0.0
    ensures var allowed := Times(Div(l, Times(p, 100.0)), 100.0);
            Div(Times(allowed, total), 100.0)
            <= Times(l / Times(p, 100.0), total) + Times(HALF_UNIT_20, total) + HALF_UNIT_20
    ensures var allowed := Times(Div(l, Times(p, 100.0)), 100.0);
            Div(Times(allowed, total), 100.0)
            >= Times(l / Times(p, 100.0), total) - Times(HALF_UNIT_20, total) - HALF_UNIT_20
  {
    var exact := l / Times(p, 100.0);
    var q := Div(l, Times(p, 100.0));
    TimesGrows(q, exact + HALF_UNIT_20, total);
    TimesGrows(exact - HALF_UNIT_20, q, total);
    assert Times(Times(q, 100.0), total) / 100.0 == Times(q, total);
    Distribute(exact, HALF_UNIT_20, total);
    assert Times(exact - HALF_UNIT_20, total) == Times(exact, total) - Times(HALF_UNIT_20, total);
  }

  /**
   The allowed loss, and what rounding can add to it. A stop so near that its distance rounds to nothing
   is not limited by the loss it makes, only by the balance.
   */
  function LossBound(rules: TradingRules, buy: real, stop: real, available: real, total: real): real
    requires buy > 0.0
  {
    var p := Div(buy - stop, buy);
    if p > 0.0 then
      Times(Times(rules.maxLossPercentage / 100.0, 1.0 + HALF_UNIT_20 / p), total)
      + Times(Times(total + 1.0, LossShare(buy, stop)) + (buy - stop), HALF_UNIT_20)
    else Times(available + (buy - stop), HALF_UNIT_20)
  }

  lemma LossOfCap(rules: TradingRules, buy: real, stop: real, available: real, total: real, volume: real)
    requires rules.maxLossPercentage >= 0.0 && 0.0 < stop < buy && total >= 0.0 && Div(buy - stop, buy) > 0.0
    requires var p := Div(buy - stop, buy);
             volume <= Times(rules.maxLossPercentage / Times(p, 100.0), total) + Times(HALF_UNIT_20, total)
                 + HALF_UNIT_20
    ensures Times(volume, LossShare(buy, stop)) + Times(HALF_UNIT_20, buy - stop)
            <= LossBound(rules, buy, stop, available, total)
  {
    var p, f, l, h := Div(buy - stop, buy), LossShare(buy, stop), rules.maxLossPercentage, HALF_UNIT_20;
    var c := l / Times(p, 100.0);
    assert f >= 0.0 by { Share(buy, stop); }
    TimesGrows(volume, Times(c, total) + Times(h, total) + h, f);
    Expand(c, total, h, f);
    ShareOfRounded(l, p, f, h);
    TimesGrows(Times(c, f), Times(l / 100.0, 1.0 + h / p), total);
    Collect(total, f, h, buy - stop);
  }

  lemma Share(buy: real, stop: real)
    requires 0.0 < stop < buy
    ensures LossShare(buy, stop) > 0.0
    ensures Times(buy, LossShare(buy, stop)) == buy - stop
  {
  }

  lemma Expand(c: real, total: real, h: real, f: real)
    ensures Times(Times(c, total) + Times(h, total) + h, f)
        == Times(Times(c, f), total) + Times(Times(h, total), f) + Times(h, f)
  {
  }

  lemma Collect(total: real, f: real, h: real, d: real)
    ensures Times(Times(h, total), f) + Times(h, f) + Times(h, d) == Times(Times(total + 1.0, f) + d, h)
  {
  }

  lemma Distribute(a: real, b: real, u: real)
    ensures Times(a + b, u) == Times(a, u) + Times(b, u)
  {
  }

  lemma Commute(a: real, b: real)
    ensures Times(a, b) == Times(b, a) && (a == 1.0 ==> Times(a, b) == b)
  {
  }

  lemma UnlimitedLoss(volume: real, available: real, buy: real, stop: real)
    requires volume <= available && available >= 0.0 && 0.0 < stop < buy && Div(buy - stop, buy) <= 0.0
    ensures Times(volume, LossShare(buy, stop)) + Times(HALF_UNIT_20, buy - stop)
            <= Times(available + (buy - stop), HALF_UNIT_20)
  {
    var f := LossShare(buy, stop);
    Share(buy, stop);
    TimesGrows(volume, available, f);
    TimesGrows(f, HALF_UNIT_20, available);
    Distribute(available, buy - stop, HALF_UNIT_20);
    Commute(HALF_UNIT_20, available);
    Commute(HALF_UNIT_20, buy - stop);
    Commute(available, f);
  }

  /**
   For a stop below the buy price with automatic sizing: selling everything bought at the stop loses no
   more than the allowed percentage of the whole portfolio, up to the rounding of the divisions. With
   exact division the extra terms vanish and the loss is at most total * maxLossPercentage / 100.
   */
  lemma LossIsBounded(rules: TradingRules, o: Order, available: real, total: real)
    requires o.stop.Some? && 0.0 < o.stop.value < o.buy && !o.noAutoSize
    requires rules.maxLossPercentage >= 0.0 && total >= 0.0 && available >= 0.0
    requires Size(rules, o, available, total).Some?
    ensures Times(Size(rules, o, available, total).value.baseAmount, o.buy - o.stop.value)
            <= LossBound(rules, o.buy, o.stop.value, available, total)
  {
    var buy, stop, p := o.buy, o.stop.value, Div(o.buy - o.stop.value, o.buy);
    var volume := Size(rules, o, available, total).value.quoteVolume;
    if p > 0.0 {
      AllowedVolume(rules, o, available, total);
      LossOfCap(rules, buy, stop, available, total, volume);
    } else {
      UnlimitedLoss(volume, available, buy, stop);
    }
    if volume >= 0.0 {
      LossOfBase(volume, buy, stop);
    } else {
      NothingBought(volume, buy);
      TimesGrows(BaseVolume(volume, buy), 0.0, buy - stop);
      BoundIsNonNegative(rules, buy, stop, available, total);
    }
  }

  lemma NothingBought(volume: real, price: real)
    requires volume < 0.0 && price > 0.0
    ensures BaseVolume(volume, price) <= 0.0
  {
    assert volume / price <= 0.0;
  }

  lemma BoundIsNonNegative(rules: TradingRules, buy: real, stop: real, available: real, total: real)
    requires rules.maxLossPercentage >= 0.0 && 0.0 < stop < buy && total >= 0.0 && available >= 0.0
    ensures LossBound(rules, buy, stop, available, total) >= 0.0
  {
    var p := Div(buy - stop, buy);
    Share(buy, stop);
    if p > 0.0 {
      var factor := 1.0 + HALF_UNIT_20 / p;
      TimesGrows(0.0, factor, rules.maxLossPercentage / 100.0);
      TimesGrows(0.0, Times(rules.maxLossPercentage / 100.0, factor), total);
      TimesGrows(0.0, total + 1.0, LossShare(buy, stop));
      TimesGrows(0.0, Times(total + 1.0, LossShare(buy, stop)) + (buy - stop), HALF_UNIT_20);
    } else {
      TimesGrows(0.0, available + (buy - stop), HALF_UNIT_20);
    }
  }

  lemma AllowedVolume(rules: TradingRules, o: Order, available: real, total: real)
    requires o.stop.Some? && 0.0 < o.stop.value < o.buy && !o.noAutoSize
    requires rules.maxLossPercentage >= 0.0 && total >= 0.0
    requires Size(rules, o, available, total).Some? && Div(o.buy - o.stop.value, o.buy) > 0.0
    ensures var p := Div(o.buy - o.stop.value, o.buy);
            Size(rules, o, available, total).value.quoteVolume
            <= Times(rules.maxLossPercentage / Times(p, 100.0), total) + Times(HALF_UNIT_20, total) + HALF_UNIT_20
  {
    var p := Div(o.buy - o.stop.value, o.buy);
    assert Times(p, 100.0) != 0.0;
    var allowed := AllowedPercentage(rules, o);
    var byStop := Times(Div(rules.maxLossPercentage, Times(p, 100.0)), 100.0);
    assert allowed.Number? && allowed.value <= byStop;
    TimesGrows(allowed.value, byStop, total);
    CapIsNear(rules.maxLossPercentage, p, total);
    CapGrows(Times(allowed.value, total), Times(byStop, total));
  }

  lemma CapGrows(a: real, b: real)
    requires a <= b
    ensures Div(a, 100.0) <= Div(b, 100.0)
  {
    var x, y := a / 100.0, b / 100.0;
    assert Nearest(x * E20) <= Nearest(y * E20);
  }

  lemma Ratio(v: real, b: real, d: real)
    requires b > 0.0
    ensures Times(v / b, d) == Times(v, d / b)
  {
  }

  lemma BaseIsNear(volume: real, price: real)
    requires volume >= 0.0 && price > 0.0
    ensures BaseVolume(volume, price) <= volume / price + HALF_UNIT_20
  {
    assert volume / price >= 0.0;
    assert Div(volume, price) <= volume / price + HALF_UNIT_20;
  }

  lemma LossOfBase(volume: real, buy: real, stop: real)
    requires volume >= 0.0 && 0.0 < stop < buy
    ensures Times(BaseVolume(volume, buy), buy - stop)
            <= Times(volume, LossShare(buy, stop)) + Times(HALF_UNIT_20, buy - stop)
  {
    BaseIsNear(volume, buy);
    TimesGrows(BaseVolume(volume, buy), volume / buy + HALF_UNIT_20, buy - stop);
    Distribute(volume / buy, HALF_UNIT_20, buy - stop);
    Ratio(volume, buy, buy - stop);
  }

  /** How far rounding can keep a volume below the largest one allowed. */
  function SizingSlack(rules: TradingRules, buy: real, stop: real, total: real): real
    requires buy > 0.0 && LossShare(buy, stop) > 0.0
  {
    var p := Div(buy - stop, buy);
    if p > 0.0 then
      Times(Times(rules.maxLossPercentage / 100.0, HALF_UNIT_20 / Times(LossShare(buy, stop), p)), total)
      + Times(HALF_UNIT_20, total) + HALF_UNIT_20
    else HALF_UNIT_20
  }

  lemma OverProduct(f: real, p: real)
    requires f > 0.0 && p > 0.0
    ensures Times(f, p) != 0.0 && 1.0 / f - 1.0 / p == (p - f) / Times(f, p)
  {
    Positive(f, p);
    assert Times(1.0 / f, Times(f, p)) == p && Times(1.0 / p, Times(f, p)) == f;
  }

  lemma InverseShares(l: real, f: real, p: real, h: real)
    requires l >= 0.0 && f > 0.0 && p > 0.0 && p - f <= h
    ensures Times(l, 1.0 / f) <= Times(l, 1.0 / p) + Times(l, h / Times(f, p))
  {
    var fp := Times(f, p);
    assert fp > 0.0 by { Positive(f, p); }
    assert 1.0 / f - 1.0 / p == (p - f) / fp by { OverProduct(f, p); }
    assert (p - f) / fp <= h / fp;
    TimesGrows(1.0 / f, 1.0 / p + h / fp, l);
    Commute(1.0 / f, l);
    Distribute(1.0 / p, h / fp, l);
    Commute(1.0 / p, l);
    Commute(h / fp, l);
  }

  /** A volume whose exact loss stays within the allowed one is no bigger than the exact cap. */
  lemma WithinCap(x: real, l: real, f: real, total: real)
    requires f > 0.0 && Times(x, f) <= Times(l / 100.0, total)
    ensures x <= Times(Times(l / 100.0, 1.0 / f), total)
  {
    assert Times(Times(Times(l / 100.0, 1.0 / f), total), f) == Times(l / 100.0, total);
    TimesOrder(Times(Times(l / 100.0, 1.0 / f), total), x, f);
  }

  lemma ShareIsRounded(l: real, p: real)
    requires p > 0.0
    ensures Times(p, 100.0) != 0.0 && l / Times(p, 100.0) == Times(l / 100.0, 1.0 / p)
  {
  }

  lemma CapCovers(l: real, f: real, p: real, total: real)
    requires l >= 0.0 && f > 0.0 && p > 0.0 && p - f <= HALF_UNIT_20 && total >= 0.0
    ensures Times(Times(l / 100.0, 1.0 / f), total)
            <= Times(l / Times(p, 100.0), total) + Times(Times(l / 100.0, HALF_UNIT_20 / Times(f, p)), total)
  {
    var a, b := Times(l / 100.0, 1.0 / p), Times(l / 100.0, HALF_UNIT_20 / Times(f, p));
    assert Times(f, p) > 0.0 by { Positive(f, p); }
    InverseShares(l / 100.0, f, p, HALF_UNIT_20);
    ShareIsRounded(l, p);
    TimesGrows(Times(l / 100.0, 1.0 / f), a + b, total);
    Distribute(a, b, total);
  }

  lemma SlackIsPositive(rules: TradingRules, buy: real, stop: real, total: real)
    requires 0.0 < stop < buy && rules.maxLossPercentage >= 0.0 && total >= 0.0 && Div(buy - stop, buy) > 0.0
    ensures LossShare(buy, stop) > 0.0 && SizingSlack(rules, buy, stop, total) >= HALF_UNIT_20
  {
    var p, f := Div(buy - stop, buy), LossShare(buy, stop);
    Share(buy, stop);
    Positive(f, p);
    TimesGrows(0.0, HALF_UNIT_20 / Times(f, p), rules.maxLossPercentage / 100.0);
    Commute(HALF_UNIT_20 / Times(f, p), rules.maxLossPercentage / 100.0);
    TimesGrows(0.0, Times(rules.maxLossPercentage / 100.0, HALF_UNIT_20 / Times(f, p)), total);
    TimesGrows(0.0, HALF_UNIT_20, total);
  }

  /** The volume meets one of its four bounds. */
  lemma VolumeReaches(rules: TradingRules, o: Order, available: real, total: real)
    requires o.stop.Some? && 0.0 < o.stop.value < o.buy && !o.noAutoSize
    requires Size(rules, o, available, total).Some? && Div(o.buy - o.stop.value, o.buy) > 0.0
    ensures var volume := Size(rules, o, available, total).value.quoteVolume;
            var p := Div(o.buy - o.stop.value, o.buy);
            || volume == available
            || (o.maxQuote.Some? && volume == o.maxQuote.value)
            || volume == Div(Times(Times(Div(rules.maxLossPercentage, Times(p, 100.0)), 100.0), total), 100.0)
            || (rules.maxPercentagePerTrade.Some?
                && volume == Div(Times(rules.maxPercentagePerTrade.value, total), 100.0))
  {
    assert Times(Div(o.buy - o.stop.value, o.buy), 100.0) != 0.0;
  }

  /** A stop so near that its distance rounds to nothing sets no bound of its own. */
  lemma NearStopReaches(rules: TradingRules, o: Order, available: real, total: real)
    requires o.stop.Some? && 0.0 < o.stop.value < o.buy && !o.noAutoSize
    requires rules.maxLossPercentage >= 0.0 && Div(o.buy - o.stop.value, o.buy) == 0.0
    requires Size(rules, o, available, total).Some?
    ensures var volume := Size(rules, o, available, total).value.quoteVolume;
            || volume == available
            || (o.maxQuote.Some? && volume == o.maxQuote.value)
            || (rules.maxPercentagePerTrade.Some?
                && volume == Div(Times(rules.maxPercentagePerTrade.value, total), 100.0))
  {
    assert StopPercentage(o.buy, o.stop.value) == 0.0;
  }

  lemma DistanceIsRounded(buy: real, stop: real)
    requires 0.0 < stop < buy
    ensures Div(buy - stop, buy) >= 0.0
  {
    assert (buy - stop) / buy >= 0.0;
  }

  /**
   The volume is also the largest there is: any other that respects the balance, the caller's maximum, the
   cap on one trade and the allowed loss is no bigger, up to the rounding of the divisions.
   */
  lemma NoneIsBigger(rules: TradingRules, o: Order, available: real, total: real, x: real)
    requires o.stop.Some? && 0.0 < o.stop.value < o.buy && !o.noAutoSize
    requires rules.maxLossPercentage >= 0.0 && total >= 0.0
    requires Size(rules, o, available, total).Some?
    requires x <= available && (o.maxQuote.Some? ==> x <= o.maxQuote.value)
    requires rules.maxPercentagePerTrade.Some? ==> x <= Times(rules.maxPercentagePerTrade.value, total) / 100.0
    requires Times(x, LossShare(o.buy, o.stop.value)) <= Times(rules.maxLossPercentage / 100.0, total)
    ensures LossShare(o.buy, o.stop.value) > 0.0
    ensures x <= Size(rules, o, available, total).value.quoteVolume + SizingSlack(rules, o.buy, o.stop.value, total)
  {
    var l, p, f := rules.maxLossPercentage, Div(o.buy - o.stop.value, o.buy), LossShare(o.buy, o.stop.value);
    Share(o.buy, o.stop.value);
    DistanceIsRounded(o.buy, o.stop.value);
    if p > 0.0 {
      WithinCap(x, l, f, total);
      CapCovers(l, f, p, total);
      CapIsNear(l, p, total);
      SlackIsPositive(rules, o.buy, o.stop.value, total);
      VolumeReaches(rules, o, available, total);
    } else {
      NearStopReaches(rules, o, available, total);
    }
  }

  // ---------- The sizing, case by case ----------

  ghost function SumOf(bs: seq<Balance>, of: Balance -> real): real {
    if bs == [] then 0.0 else of(bs[0]) + SumOf(bs[1..], of)
  }

  lemma {:induction false} SumOneMore(bs: seq<Balance>, b: Balance, of: Balance -> real)
    ensures SumOf(bs + [b], of) == SumOf(bs, of) + of(b)
  {
    if bs == [] {
      assert [] + [b] == [b] && [b][1..] == [];
    } else {
      SumOneMore(bs[1..], b, of);
      assert (bs + [b])[1..] == bs[1..] + [b];
    }
  }

  /** What is available is the free quote currency; the total is all of it and whatever else has a price in it. */
  lemma {:induction false} PortfolioIsSum(bs: seq<Balance>, quote: string, prices: Prices)
    ensures Available(bs, quote) == SumOf(bs, (b: Balance) => if b.asset == quote then b.free else 0.0)
    ensures Total(bs, quote, prices) == SumOf(bs, (b: Balance) =>
              if b.asset == quote then b.free + b.locked
              else if b.asset + quote in prices then Times(b.free + b.locked, prices[b.asset + quote])
              else 0.0)
    decreases |bs|
  {
    if bs != [] {
      var front, last := bs[..|bs| - 1], bs[|bs| - 1];
      PortfolioIsSum(front, quote, prices);
      assert bs == front + [last];
      SumOneMore(front, last, (b: Balance) => if b.asset == quote then b.free else 0.0);
      SumOneMore(front, last, (b: Balance) =>
        if b.asset == quote then b.free + b.locked
        else if b.asset + quote in prices then Times(b.free + b.locked, prices[b.asset + quote])
        else 0.0);
    }
  }

  /** The share of the portfolio one trade may take, in percent: all of it where the stop does not limit it. */
  function Share100(rules: TradingRules, o: Order): real
    requires o.buy > 0.0
    requires o.stop.Some? && !o.noAutoSize ==> Div(o.buy - o.stop.value, o.buy) != 0.0
  {
    var byStop := if o.stop.None? || o.noAutoSize then 100.0
                  else Div(rules.maxLossPercentage, Div(o.buy - o.stop.value, o.buy) * 100.0) * 100.0;
    if rules.maxPercentagePerTrade.Some? then Min(byStop, rules.maxPercentagePerTrade.value) else byStop
  }

  /**
   What is spent is the least of that share, the balance and the caller's maximum, and what it buys is cut to 8
   places; without a stop the trade is refused where the rules want one.
   */
  lemma SizesExactly(rules: TradingRules, o: Order, available: real, total: real)
    requires o.buy > 0.0
    requires o.stop.Some? && !o.noAutoSize ==> Div(o.buy - o.stop.value, o.buy) != 0.0
    ensures var size := Size(rules, o, available, total);
            var most := Min(Div(Times(Share100(rules, o), total), 100.0), available);
            var volume := if o.maxQuote.Some? then Min(most, o.maxQuote.value) else most;
            && (size.None? <==> o.stop.None? && !rules.withoutStopAllowed)
            && (size.Some? ==> size.value == Sized(volume, Truncate8(Div(volume, o.buy))))
  {
  }

  // ---------- Base and quote ----------

  const UNITS: int := 1_000_000_000_000 // 20-place units in one 8-place unit

  /**
   What is bought is the quote volume cut to 8 places: exactly, unless rounding the quotient at 20 places
   carries it to the next 8-place unit, when slightly more is bought than the volume pays for.
   */
  lemma BaseFitsExactly(volume: real, price: real)
    requires volume >= 0.0 && price > 0.0
    ensures var base, unit := BaseVolume(volume, price), 1.0 / E8;
            var next := ((volume / price * E8).Floor + 1) as real / E8;
            && (Times(base, price) <= volume <==> next - volume / price > HALF_UNIT_20)
            && (Times(base, price) <= volume ==> volume < Times(base + unit, price))
            && (Times(base, price) > volume ==> base == next)
  {
    var x := volume / price;
    var m := (x * E8).Floor;
    var base := BaseVolume(volume, price);
    CutUnits(x, m);
    PriceOrder(base, x, price, volume);
    PriceOrder(base + 1.0 / E8, x, price, volume);
  }

  /** A quote volume of 19 nines behind 0.0 buys 0.01 of base at 10, which costs 0.1. */
  lemma BaseCostsMore()
    ensures BaseVolume(0.09999999999999999999, 10.0) == 0.01 && Times(0.01, 10.0) > 0.09999999999999999999
  {
    CutUnits(0.009999999999999999999, 999999);
  }

  lemma PriceOrder(b: real, x: real, price: real, volume: real)
    requires price > 0.0 && x == volume / price
    ensures Times(b, price) <= volume <==> b <= x
    ensures Times(b, price) > volume <==> b > x
  {
    assert Times(x, price) == volume;
    if b <= x {
      TimesGrows(b, x, price);
    } else {
      assert Times(b, price) - Times(x, price) == Times(b - x, price) > 0.0;
    }
  }

  lemma RoundUnits(y: real, m: int)
    requires m == y.Floor
    ensures var n := (y * UNITS as real + 0.5).Floor;
            var k := if (m + 1) as real - y > 0.5 / UNITS as real then m else m + 1;
            k * UNITS <= n < (k + 1) * UNITS
  {
  }

  lemma CutRounded(r: real, n: int, k: int)
    requires r == n as real / E20 && k * UNITS <= n < (k + 1) * UNITS && n >= 0
    ensures r >= 0.0 && (r * E8).Floor == k
  {
    var z := n as real / UNITS as real;
    ToUnits(n as real);
    assert k as real <= z < (k + 1) as real;
    assert z.Floor == k;
  }

  lemma ToUnits(n: real)
    ensures n / E20 * E8 == n / UNITS as real
  {
  }

  lemma InUnits(x: real, m: int)
    requires m == (x * E8).Floor
    ensures x * E20 == x * E8 * UNITS as real
    ensures m as real / E8 <= x < (m + 1) as real / E8
    ensures (m + 1) as real / E8 - x > HALF_UNIT_20 <==> (m + 1) as real - x * E8 > 0.5 / UNITS as real
  {
  }

  lemma CutFrom(x: real, k: int)
    requires x >= 0.0 && k * UNITS <= (x * E20 + 0.5).Floor < (k + 1) * UNITS
    ensures Truncate8(Round20(x)) == k as real / E8
  {
    CutRounded(Round20(x), (x * E20 + 0.5).Floor, k);
  }

  /** Truncating the rounded quotient gives the floor, or the unit after it when rounding carried. */
  lemma CutUnits(x: real, m: int)
    requires x >= 0.0 && m == (x * E8).Floor
    ensures Truncate8(Round20(x))
        == if (m + 1) as real / E8 - x > HALF_UNIT_20 then m as real / E8 else (m + 1) as real / E8
    ensures m as real / E8 <= x < (m + 1) as real / E8
  {
    InUnits(x, m);
    RoundUnits(x * E8, m);
    CutFrom(x, if (m + 1) as real - x * E8 > 0.5 / UNITS as real then m else m + 1);
  }

  // ---------- The sizer ----------

  class Sizer {
    const rules: TradingRules

    constructor (rules: TradingRules)
      ensures this.rules == rules
    {
      this.rules := rules;
    }

    /** The balances and prices are what the exchange answers. */
    method PortfolioValue(bs: seq<Balance>, prices: Prices, quote: string) returns (available: real, total: real)
      ensures available == Available(bs, quote) && total == Total(bs, quote, prices)
    {
      available, total := 0.0, 0.0;
      var i := 0;
      assert bs[..0] == [];
      while i < |bs|
        invariant 0 <= i <= |bs|
        invariant available == Available(bs[..i], quote) && total == Total(bs[..i], quote, prices)
      {
        assert bs[..i + 1][..i] == bs[..i];
        var b := bs[i];
        if b.asset == quote {
          available := available + b.free;
          total := total + b.free + b.locked;
        } else {
          var pair := b.asset + quote;
          if pair in prices {
            var held := b.free + b.locked;
            total := total + Times(held, prices[pair]);
          }
        }
        i := i + 1;
      }
      assert bs[..i] == bs;
    }

    method SizePosition(o: Order, bs: seq<Balance>, prices: Prices) returns (r: Option<Sized>)
      requires o.buy > 0.0
      ensures r == Size(rules, o, Available(bs, o.quote), Total(bs, o.quote, prices))
    {
      if !rules.withoutStopAllowed {
        if o.stop.None? {
          return None;
        }
      }
      var allowed: Amount;
      if o.noAutoSize || o.stop.None? {
        allowed := Number(100.0);
      } else {
        allowed := AllowedByStop(rules, o.buy, o.stop.value);
      }
      if rules.maxPercentagePerTrade.Some? {
        allowed := Least(allowed, rules.maxPercentagePerTrade.value);
      }
      var available, total := PortfolioValue(bs, prices, o.quote);
      var volume := AutoSized(allowed, available, total);
      if o.maxQuote.Some? {
        volume := Least(volume, o.maxQuote.value);
      }
      if !volume.Number? {
        return None;
      }
      r := Some(Sized(volume.value, BaseVolume(volume.value, o.buy)));
    }
  }
}
