/**
 The value of a portfolio in one quote currency. Balances are first decorated with their value in it,
 rounded to 8 places, and the decorations are then added up.
 */
module SpotPortfolio {
  import opened Options
  import opened Rounding

  type Prices = map<string, real>

  /** `equivalents` maps a quote currency to the balance's value in it; many balances have none yet. */
  datatype Balance = Balance(asset: string, free: real, locked: real, equivalents: Option<map<string, real>>)

  /** A conversion rounds once at 20 places at most, and its decoration once at 8. */
  const ROUNDING: real := HALF_UNIT_8 + HALF_UNIT_20

  datatype Outcome<+T> = Ok(value: T) | Failed

  ghost predicate Positive(prices: Prices) {
    forall pair :: pair in prices ==> prices[pair] > 0.0
  }

  // ---------- One balance ----------

  /** None where the source throws: neither the pair nor its inverse has a price. */
  function Convert(quantity: real, base: string, quote: string, prices: Prices): Option<real>
    requires Positive(prices)
  {
    if base == quote then Some(quantity)
    else if quantity == 0.0 then Some(0.0)
    else if base + quote in prices then Some(Times(quantity, prices[base + quote]))
    else if quote + base in prices then Some(Div(quantity, prices[quote + base]))
    else None
  }

  function Held(b: Balance): real {
    b.free + b.locked
  }

  /** The value without any rounding; nothing for what cannot be converted. */
  ghost function ExactValue(b: Balance, quote: string, prices: Prices): real
    requires Positive(prices)
  {
    var held := b.free + b.locked;
    if b.asset == quote then held
    else if b.asset + quote in prices then Times(held, prices[b.asset + quote])
    else if quote + b.asset in prices then held / prices[quote + b.asset]
    else 0.0
  }

  function Decorated(b: Balance, quote: string, prices: Prices): Balance
    requires Positive(prices)
  {
    match Convert(Held(b), b.asset, quote, prices)
    case None => b
    case Some(v) =>
      var before := if b.equivalents.Some? then b.equivalents.value else map[];
      b.(equivalents := Some(before[quote := Round8(v)]))
  }

  /** An object of equivalents that was there already is written to in place. */
  function InPlace(b: Balance, quote: string, prices: Prices): Balance
    requires Positive(prices)
  {
    if b.equivalents.Some? then Decorated(b, quote, prices) else b
  }

  function Equivalent(b: Balance, quote: string): real {
    if b.equivalents.Some? && quote in b.equivalents.value then b.equivalents.value[quote] else 0.0
  }

  // ---------- All of them ----------

  function DecoratedAll(bs: seq<Balance>, quote: string, prices: Prices): seq<Balance>
    requires Positive(prices)
    decreases |bs|
  {
    if bs == [] then [] else DecoratedAll(bs[..|bs| - 1], quote, prices) + [Decorated(bs[|bs| - 1], quote, prices)]
  }

  function InPlaceAll(bs: seq<Balance>, quote: string, prices: Prices): seq<Balance>
    requires Positive(prices)
    decreases |bs|
  {
    if bs == [] then [] else InPlaceAll(bs[..|bs| - 1], quote, prices) + [InPlace(bs[|bs| - 1], quote, prices)]
  }

  function Unprocessed(bs: seq<Balance>, quote: string, prices: Prices): seq<string>
    requires Positive(prices)
    decreases |bs|
  {
    if bs == [] then []
    else
      var b := bs[|bs| - 1];
      Unprocessed(bs[..|bs| - 1], quote, prices)
      + if Convert(Held(b), b.asset, quote, prices).None? then [b.asset] else []
  }

  function Total(bs: seq<Balance>, quote: string): real
    decreases |bs|
  {
    if bs == [] then 0.0 else Total(bs[..|bs| - 1], quote) + Equivalent(bs[|bs| - 1], quote)
  }

  ghost function ExactTotal(bs: seq<Balance>, quote: string, prices: Prices): real
    requires Positive(prices)
    decreases |bs|
  {
    if bs == [] then 0.0 else ExactTotal(bs[..|bs| - 1], quote, prices) + ExactValue(bs[|bs| - 1], quote, prices)
  }

  /** What the balances that came without any equivalents are worth after rounding. */
  ghost function NewlyDecorated(bs: seq<Balance>, quote: string, prices: Prices): real
    requires Positive(prices)
    decreases |bs|
  {
    if bs == [] then 0.0
    else
      var b := bs[|bs| - 1];
      NewlyDecorated(bs[..|bs| - 1], quote, prices)
      + if b.equivalents.None? then Equivalent(Decorated(b, quote, prices), quote) else 0.0
  }

  ghost predicate Undecorated(bs: seq<Balance>, quote: string) {
    forall i :: 0 <= i < |bs| ==> bs[i].equivalents.Some? ==> quote !in bs[i].equivalents.value
  }

  lemma NearExact(b: Balance, quote: string, prices: Prices)
    requires Positive(prices) && (b.equivalents.Some? ==> quote !in b.equivalents.value)
    ensures Abs(Equivalent(Decorated(b, quote, prices), quote) - ExactValue(b, quote, prices)) <= ROUNDING
  {
    if b.asset != quote && Held(b) == 0.0 {
      assert b.asset + quote in prices ==> Times(0.0, prices[b.asset + quote]) == 0.0;
      assert quote + b.asset in prices ==> 0.0 / prices[quote + b.asset] == 0.0;
    }
  }

  /** `v` is what `held` of an asset is worth at 8 places; its pair with the quote goes before the inverse. */
  ghost predicate Worth(held: real, asset: string, quote: string, prices: Prices, v: real)
    requires Positive(prices)
  {
    if asset == quote then Rounded(held, v, 100000000.0)
    else if asset + quote in prices then Rounded(Times(held, prices[asset + quote]), v, 100000000.0)
    else if quote + asset in prices then
      exists q :: Rounded(held / prices[quote + asset], q, 100000000000000000000.0) && Rounded(q, v, 100000000.0)
    else v == 0.0
  }

  lemma ConvertsToWorth(held: real, asset: string, quote: string, prices: Prices)
    requires Positive(prices) && Convert(held, asset, quote, prices).Some?
    ensures Worth(held, asset, quote, prices, Round8(Convert(held, asset, quote, prices).value))
  {
    var v := Convert(held, asset, quote, prices).value;
    RoundsTo8(v);
    if asset != quote && asset + quote in prices {
      assert held == 0.0 ==> Times(held, prices[asset + quote]) == 0.0;
    } else if asset != quote && quote + asset in prices {
      var q := Div(held, prices[quote + asset]);
      DividesTo20(held, prices[quote + asset]);
      assert held == 0.0 ==> held / prices[quote + asset] == 0.0;
      assert Rounded(held / prices[quote + asset], q, 100000000000000000000.0) && Rounded(q, Round8(v), 100000000.0);
    }
  }

  /** Decorating writes one equivalent and nothing else, and only for what is nothing or has a price. */
  lemma DecoratesExactly(b: Balance, quote: string, prices: Prices)
    requires Positive(prices)
    ensures var d, held := Decorated(b, quote, prices), b.free + b.locked;
            && d.asset == b.asset && d.free == b.free && d.locked == b.locked
            && (forall other :: other != quote ==>
                  Equivalent(d, other) == Equivalent(b, other)
                  && (d.equivalents.Some? && other in d.equivalents.value <==>
                      b.equivalents.Some? && other in b.equivalents.value))
            && if b.asset != quote && held != 0.0 && b.asset + quote !in prices && quote + b.asset !in prices
               then d == b
               else d.equivalents.Some? && quote in d.equivalents.value
                    && Worth(held, b.asset, quote, prices, d.equivalents.value[quote])
  {
    if Convert(Held(b), b.asset, quote, prices).Some? { ConvertsToWorth(Held(b), b.asset, quote, prices); }
  }

  /** The total of a portfolio not yet valued is within one rounding per balance of its exact value. */
  lemma {:induction false} TotalIsNearExact(bs: seq<Balance>, quote: string, prices: Prices)
    requires Positive(prices) && Undecorated(bs, quote)
    ensures Abs(Total(DecoratedAll(bs, quote, prices), quote) - ExactTotal(bs, quote, prices))
            <= Times(|bs| as real, ROUNDING)
    decreases |bs|
  {
    if bs != [] {
      var front, b := bs[..|bs| - 1], bs[|bs| - 1];
      TotalIsNearExact(front, quote, prices);
      NearExact(b, quote, prices);
      OneMore(|front|);
      var d := DecoratedAll(bs, quote, prices);
      assert d[..|d| - 1] == DecoratedAll(front, quote, prices);
    } else {
      assert Times(0.0, ROUNDING) == 0.0;
    }
  }

  lemma OneMore(n: nat)
    ensures Times((n + 1) as real, ROUNDING) == Times(n as real, ROUNDING) + ROUNDING
  {
  }

  /** The unprocessed assets are those held, other than the quote currency, with neither pair priced. */
  lemma {:induction false} UnprocessedExactly(bs: seq<Balance>, quote: string, prices: Prices, asset: string)
    requires Positive(prices)
    ensures asset in Unprocessed(bs, quote, prices) <==>
            && asset != quote && asset + quote !in prices && quote + asset !in prices
            && exists i :: 0 <= i < |bs| && bs[i].asset == asset && bs[i].free + bs[i].locked != 0.0
    decreases |bs|
  {
    if bs != [] {
      var front, b := bs[..|bs| - 1], bs[|bs| - 1];
      UnprocessedExactly(front, quote, prices, asset);
      assert forall i :: 0 <= i < |front| ==> front[i] == bs[i];
      if b.asset == asset && Held(b) != 0.0 {
        assert bs[|bs| - 1].asset == asset;
      }
    }
  }

  /** Totalling the same object a second time finds only the decorations made in place. */
  lemma {:induction false} SecondTotal(bs: seq<Balance>, quote: string, prices: Prices)
    requires Positive(prices)
    ensures Total(InPlaceAll(bs, quote, prices), quote)
         == Total(DecoratedAll(bs, quote, prices), quote) - NewlyDecorated(bs, quote, prices)
    decreases |bs|
  {
    if bs != [] {
      var front := bs[..|bs| - 1];
      SecondTotal(front, quote, prices);
      var d, p := DecoratedAll(bs, quote, prices), InPlaceAll(bs, quote, prices);
      assert d[..|d| - 1] == DecoratedAll(front, quote, prices) && p[..|p| - 1] == InPlaceAll(front, quote, prices);
    }
  }

  lemma {:induction false} NewlyDecoratedIsZero(bs: seq<Balance>, quote: string, prices: Prices)
    requires Positive(prices) && forall i :: 0 <= i < |bs| ==> Held(bs[i]) >= 0.0
    ensures NewlyDecorated(bs, quote, prices) >= 0.0
    ensures NewlyDecorated(bs, quote, prices) == 0.0 <==>
            forall i :: 0 <= i < |bs| && bs[i].equivalents.None?
                ==> Equivalent(Decorated(bs[i], quote, prices), quote) == 0.0
    decreases |bs|
  {
    if bs != [] {
      var front, b := bs[..|bs| - 1], bs[|bs| - 1];
      NewlyDecoratedIsZero(front, quote, prices);
      if b.equivalents.None? { WorthNotNegative(b, quote, prices); }
      assert forall i :: 0 <= i < |front| ==> front[i] == bs[i];
      assert bs[|bs| - 1] == b;
    }
  }

  lemma WorthNotNegative(b: Balance, quote: string, prices: Prices)
    requires Positive(prices) && Held(b) >= 0.0 && b.equivalents.None?
    ensures Equivalent(Decorated(b, quote, prices), quote) >= 0.0
  {
    if b.asset + quote in prices {
      TimesGrows(0.0, Held(b), prices[b.asset + quote]);
    }
  }

  // ---------- The objects ----------

  class Portfolio {
    var balances: Option<seq<Balance>>
    var prices: Option<Prices>
    var quoteValuesAdded: seq<string>

    constructor (balances: Option<seq<Balance>>, prices: Option<Prices>, quoteValuesAdded: seq<string>)
      ensures this.balances == balances && this.prices == prices && this.quoteValuesAdded == quoteValuesAdded
    {
      this.balances, this.prices, this.quoteValuesAdded := balances, prices, quoteValuesAdded;
    }
  }

  /**
   Returns a decorated copy. The portfolio handed in is marked as valued, its own balances changing
   only where they already had an object of equivalents. Fails when there are no prices.
   */
  method AddQuoteValue(p: Portfolio, quote: string) returns (r: Outcome<(Portfolio, seq<string>)>)
    requires p.prices.Some? ==> Positive(p.prices.value)
    modifies p
    ensures p.prices == old(p.prices)
    ensures quote in old(p.quoteValuesAdded) ==>
      r == Ok((p, [])) && p.quoteValuesAdded == old(p.quoteValuesAdded) && p.balances == old(p.balances)
    ensures quote !in old(p.quoteValuesAdded) ==> p.quoteValuesAdded == old(p.quoteValuesAdded) + [quote]
    ensures quote !in old(p.quoteValuesAdded) && old(p.balances).None? ==> r == Ok((p, [])) && p.balances == None
    ensures quote !in old(p.quoteValuesAdded) && old(p.balances).Some? ==>
      if p.prices.None? then r == Failed && p.balances == old(p.balances)
      else
        && r.Ok? && fresh(r.value.0) && r.value.0.prices == p.prices && r.value.0.quoteValuesAdded == p.quoteValuesAdded
        && r.value.0.balances == Some(DecoratedAll(old(p.balances).value, quote, p.prices.value))
        && r.value.1 == Unprocessed(old(p.balances).value, quote, p.prices.value)
        && p.balances == Some(InPlaceAll(old(p.balances).value, quote, p.prices.value))
  {
    if quote in p.quoteValuesAdded {
      return Ok((p, []));
    }
    p.quoteValuesAdded := p.quoteValuesAdded + [quote];
    if p.balances.None? {
      return Ok((p, []));
    }
    if p.prices.None? {
      return Failed;
    }
    var bs, prices := p.balances.value, p.prices.value;
    var own, processed, unprocessed: seq<string> := [], [], [];
    var i := 0;
    while i < |bs|
      invariant 0 <= i <= |bs|
      invariant own == InPlaceAll(bs[..i], quote, prices)
      invariant processed == DecoratedAll(bs[..i], quote, prices)
      invariant unprocessed == Unprocessed(bs[..i], quote, prices)
    {
      assert bs[..i + 1][..i] == bs[..i];
      var b := bs[i];
      var value := Convert(Held(b), b.asset, quote, prices);
      match value {
        case Some(v) =>
          var equivalents := if b.equivalents.Some? then b.equivalents.value else map[];
          equivalents := equivalents[quote := Round8(v)];
          own := own + [if b.equivalents.Some? then b.(equivalents := Some(equivalents)) else b];
          processed := processed + [b.(equivalents := Some(equivalents))];
        case None =>
          unprocessed := unprocessed + [b.asset];
          own, processed := own + [b], processed + [b];
      }
      i := i + 1;
    }
    assert bs[..i] == bs;
    p.balances := Some(own);
    var copy := new Portfolio(Some(processed), p.prices, p.quoteValuesAdded);
    r := Ok((copy, unprocessed));
  }

  /** Fails where the source throws: a portfolio without balances or prices. */
  method CalculateValue(p: Portfolio, quote: string) returns (r: Outcome<(real, seq<string>)>)
    requires p.prices.Some? ==> Positive(p.prices.value)
    modifies p
    ensures p.prices == old(p.prices)
    ensures quote in p.quoteValuesAdded
    ensures old(p.quoteValuesAdded) <= p.quoteValuesAdded
    ensures r.Failed? <==> p.prices.None? || old(p.balances).None?
    ensures r.Ok? ==>
      var bs := old(p.balances).value;
      if quote in old(p.quoteValuesAdded) then r.value == (Total(bs, quote), []) && p.balances == old(p.balances)
      else
        && r.value == (Total(DecoratedAll(bs, quote, p.prices.value), quote), Unprocessed(bs, quote, p.prices.value))
        && p.balances == Some(InPlaceAll(bs, quote, p.prices.value))
  {
    var added := AddQuoteValue(p, quote);
    if added.Failed? {
      return Failed;
    }
    var (valued, unprocessed) := added.value;
    if valued.balances.None? {
      return Failed;
    }
    if valued.prices.None? {
      return Failed;
    }
    var total := 0.0;
    var bs := valued.balances.value;
    var i := 0;
    while i < |bs|
      invariant 0 <= i <= |bs| && total == Total(bs[..i], quote)
    {
      assert bs[..i + 1][..i] == bs[..i];
      total := total + Equivalent(bs[i], quote);
      i := i + 1;
    }
    assert bs[..i] == bs;
    r := Ok((total, unprocessed));
  }

  /** Decorating first and totalling the copy gives the same total as totalling alone. */
  method DecoratingFirstTotalsTheSame(balances: seq<Balance>, prices: Prices, quote: string)
    returns (direct: real, staged: real)
    requires Positive(prices) && Undecorated(balances, quote)
    ensures direct == staged
    ensures Abs(direct - ExactTotal(balances, quote, prices)) <= Times(|balances| as real, ROUNDING)
  {
    var p := new Portfolio(Some(balances), Some(prices), []);
    var q := new Portfolio(Some(balances), Some(prices), []);
    var alone := CalculateValue(p, quote);
    var added := AddQuoteValue(q, quote);
    var again := CalculateValue(added.value.0, quote);
    TotalIsNearExact(balances, quote, prices);
    return alone.value.0, again.value.0;
  }

  /**
   Totalling one object twice: the second time nothing is converted, and the total agrees with the first
   exactly when every balance that came without equivalents is worth nothing after rounding.
   */
  method TotallingTwice(p: Portfolio, quote: string) returns (first: real, second: real)
    requires p.balances.Some? && p.prices.Some? && Positive(p.prices.value) && quote !in p.quoteValuesAdded
    requires forall i :: 0 <= i < |p.balances.value| ==> Held(p.balances.value[i]) >= 0.0
    modifies p
    ensures second <= first
    ensures second == first <==>
      forall i :: 0 <= i < |old(p.balances).value| && old(p.balances).value[i].equivalents.None? ==>
        Equivalent(Decorated(old(p.balances).value[i], quote, old(p.prices).value), quote) == 0.0
  {
    ghost var bs, prices := p.balances.value, p.prices.value;
    var a := CalculateValue(p, quote);
    var b := CalculateValue(p, quote);
    SecondTotal(bs, quote, prices);
    NewlyDecoratedIsZero(bs, quote, prices);
    return a.value.0, b.value.0;
  }

  /** Any positive holding of the quote currency that came without equivalents: the second total is nothing. */
  method SecondTotalIsNothing(quote: string, held: real) returns (first: real, second: real)
    requires held >= 1.0
    ensures first > 0.0 && second == 0.0
  {
    var p := new Portfolio(Some([Balance(quote, held, 0.0, None)]), Some(map[]), []);
    ghost var bs := p.balances.value;
    var a := CalculateValue(p, quote);
    var b := CalculateValue(p, quote);
    assert bs[..0] == [];
    OneBalance(bs[0], quote, map[]);
    return a.value.0, b.value.0;
  }

  lemma TotalOfOne(b: Balance, quote: string)
    ensures Total([] + [b], quote) == Equivalent(b, quote)
  {
    assert ([] + [b])[..0] == [];
  }

  lemma OneBalance(b: Balance, quote: string, prices: Prices)
    requires b.asset == quote && b.equivalents.None? && Held(b) >= 1.0 && Positive(prices)
    ensures Total(DecoratedAll([b], quote, prices), quote) > 0.0
    ensures Total(InPlaceAll([b], quote, prices), quote) == 0.0
  {
    assert [b][..0] == [];
    var d := Decorated(b, quote, prices);
    assert DecoratedAll([b], quote, prices) == DecoratedAll([], quote, prices) + [d];
    assert InPlaceAll([b], quote, prices) == InPlaceAll([], quote, prices) + [b];
    TotalOfOne(d, quote);
    TotalOfOne(b, quote);
  }
}
