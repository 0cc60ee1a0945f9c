/**
 Comparing what the exchange holds with what the open positions add up to. The messages sent are a log.
 */
module Reconciliation {
  import opened Options
  import opened Sequences
  import opened Rounding
  import SpotPortfolio

  datatype Position = Position(edge: string, asset: string, size: real)

  type Balance = SpotPortfolio.Balance

  datatype Message =
    | HeldMore(asset: string, expected: real, actual: real, drift: Option<real>)
    | NoneHeld(asset: string, missing: seq<Position>)
    | HeldLess(asset: string, expected: real, actual: real)
    | AllChecksPassed

  /** The snapshots of one run, the checker's own settings, and the quote asset this run converts to. */
  datatype Check = Check(
    positions: seq<Position>, balances: seq<Balance>, prices: SpotPortfolio.Prices,
    quoteAsset: string, ignored: seq<string>, limit: real, convertTo: string)

  // ---------- Holdings ----------

  function PositionsIn(ps: seq<Position>, asset: string): seq<Position>
    decreases |ps|
  {
    if ps == [] then []
    else PositionsIn(ps[..|ps| - 1], asset) + if ps[|ps| - 1].asset == asset then [ps[|ps| - 1]] else []
  }

  function Sum(ps: seq<Position>): real
    decreases |ps|
  {
    if ps == [] then 0.0 else Sum(ps[..|ps| - 1]) + ps[|ps| - 1].size
  }

  function Expected(ps: seq<Position>, asset: string): real {
    Sum(PositionsIn(ps, asset))
  }

  /** Of several balances of one asset the last counts. */
  function Actual(bs: seq<Balance>, asset: string): real
    decreases |bs|
  {
    if bs == [] then 0.0
    else if bs[|bs| - 1].asset == asset then SpotPortfolio.Held(bs[|bs| - 1])
    else Actual(bs[..|bs| - 1], asset)
  }

  function PositionAssets(ps: seq<Position>): seq<string> {
    seq(|ps|, i requires 0 <= i < |ps| => ps[i].asset)
  }

  function BalanceAssets(bs: seq<Balance>): seq<string> {
    seq(|bs|, i requires 0 <= i < |bs| => bs[i].asset)
  }

  /** The first occurrences, as a JavaScript Set keeps them. */
  function Distinct(names: seq<string>): seq<string>
    decreases |names|
  {
    if names == [] then []
    else
      var front, last := names[..|names| - 1], names[|names| - 1];
      if last in front then Distinct(front) else Distinct(front) + [last]
  }

  /** Either held or expected. */
  function Assets(c: Check): seq<string> {
    Distinct(Distinct(BalanceAssets(c.balances)) + Distinct(PositionAssets(c.positions)))
  }

  lemma {:induction false} DistinctHas(names: seq<string>, a: string)
    ensures a in Distinct(names) <==> a in names
    decreases |names|
  {
    if names != [] {
      var front, last := names[..|names| - 1], names[|names| - 1];
      DistinctHas(front, a);
      assert names == front + [last];
    }
  }

  lemma {:induction false} NotHeld(bs: seq<Balance>, a: string)
    requires a !in BalanceAssets(bs)
    ensures Actual(bs, a) == 0.0
    decreases |bs|
  {
    if bs != [] {
      assert BalanceAssets(bs) == BalanceAssets(bs[..|bs| - 1]) + [bs[|bs| - 1].asset];
      NotHeld(bs[..|bs| - 1], a);
    }
  }

  lemma {:induction false} NotExpected(ps: seq<Position>, a: string)
    requires a !in PositionAssets(ps)
    ensures PositionsIn(ps, a) == []
    decreases |ps|
  {
    if ps != [] {
      assert PositionAssets(ps) == PositionAssets(ps[..|ps| - 1]) + [ps[|ps| - 1].asset];
      NotExpected(ps[..|ps| - 1], a);
    }
  }

  // ---------- What a check is about ----------

  /** What the positions in an asset add up to. */
  ghost function Wanted(ps: seq<Position>, asset: string): real {
    if ps == [] then 0.0 else (if ps[0].asset == asset then ps[0].size else 0.0) + Wanted(ps[1..], asset)
  }

  predicate Holds(bs: seq<Balance>, asset: string) {
    exists i :: 0 <= i < |bs| && bs[i].asset == asset
  }

  /** Free and locked of the last balance of an asset. */
  ghost function Owned(bs: seq<Balance>, asset: string): real {
    if bs == [] then 0.0
    else if bs[0].asset == asset && !Holds(bs[1..], asset) then bs[0].free + bs[0].locked
    else Owned(bs[1..], asset)
  }

  lemma {:induction false} WantedOneMore(ps: seq<Position>, p: Position, asset: string)
    ensures Wanted(ps + [p], asset) == Wanted(ps, asset) + if p.asset == asset then p.size else 0.0
  {
    if ps == [] {
      assert [] + [p] == [p] && [p][1..] == [];
    } else {
      WantedOneMore(ps[1..], p, asset);
      assert (ps + [p])[1..] == ps[1..] + [p];
    }
  }

  lemma SumOneMore(ps: seq<Position>, p: Position)
    ensures Sum(ps + [p]) == Sum(ps) + p.size
  {
    assert (ps + [p])[..|ps|] == ps;
  }

  lemma {:induction false} ExpectedIsWanted(ps: seq<Position>, asset: string)
    ensures Expected(ps, asset) == Wanted(ps, asset)
    decreases |ps|
  {
    if ps != [] {
      var front, last := ps[..|ps| - 1], ps[|ps| - 1];
      ExpectedIsWanted(front, asset);
      assert ps == front + [last];
      WantedOneMore(front, last, asset);
      SumOneMore(PositionsIn(front, asset), last);
      assert last.asset != asset ==> PositionsIn(ps, asset) == PositionsIn(front, asset);
    }
  }

  lemma {:induction false} OwnedOneMore(bs: seq<Balance>, b: Balance, asset: string)
    ensures Owned(bs + [b], asset) == if b.asset == asset then b.free + b.locked else Owned(bs, asset)
  {
    var all := bs + [b];
    if bs == [] {
      assert all == [b] && all[1..] == [];
    } else {
      OwnedOneMore(bs[1..], b, asset);
      var rest := bs[1..];
      assert all[1..] == rest + [b];
      assert Holds(rest + [b], asset) <==> Holds(rest, asset) || b.asset == asset by {
        assert (rest + [b])[|rest|] == b;
        assert forall i :: 0 <= i < |rest| ==> (rest + [b])[i] == rest[i];
      }
    }
  }

  lemma {:induction false} ActualIsOwned(bs: seq<Balance>, asset: string)
    ensures Actual(bs, asset) == Owned(bs, asset)
    decreases |bs|
  {
    if bs != [] {
      var front, last := bs[..|bs| - 1], bs[|bs| - 1];
      ActualIsOwned(front, asset);
      assert bs == front + [last];
      OwnedOneMore(front, last, asset);
    }
  }

  /** The difference in the currency the check converts to; None where there is no price for it. */
  ghost function Difference(c: Check, asset: string): Option<real>
    requires Priced(c)
  {
    var d := Abs(Wanted(c.positions, asset) - Owned(c.balances, asset));
    if asset == c.convertTo then Some(d)
    else if d == 0.0 then Some(0.0)
    else if asset + c.convertTo in c.prices then Some(Times(d, c.prices[asset + c.convertTo]))
    else if c.convertTo + asset in c.prices then Some(Div(d, c.prices[c.convertTo + asset]))
    else None
  }

  /** An asset is in order when no less is held than expected, and more only where that is allowed. */
  ghost predicate InOrder(c: Check, asset: string)
    requires Priced(c)
  {
    var expected, actual := Wanted(c.positions, asset), Owned(c.balances, asset);
    && actual >= expected
    && (actual > expected ==>
          || asset == c.quoteAsset || asset in c.ignored
          || (Difference(c, asset).Some? && Difference(c, asset).value < c.limit))
  }

  lemma ChecksWhatItShould(c: Check, asset: string)
    requires Priced(c)
    ensures Expected(c.positions, asset) == Wanted(c.positions, asset)
    ensures Actual(c.balances, asset) == Owned(c.balances, asset)
    ensures Drift(c, asset) == Difference(c, asset)
  {
    ExpectedIsWanted(c.positions, asset);
    ActualIsOwned(c.balances, asset);
  }

  // ---------- The report ----------

  ghost predicate Priced(c: Check) {
    SpotPortfolio.Positive(c.prices)
  }

  function Drift(c: Check, asset: string): Option<real>
    requires Priced(c)
  {
    SpotPortfolio.Convert(Abs(Expected(c.positions, asset) - Actual(c.balances, asset)), asset, c.convertTo, c.prices)
  }

  /** The assets held above, and those held below, their expected amount. */
  function Over(c: Check, assets: seq<string>): seq<string>
    decreases |assets|
  {
    if assets == [] then []
    else
      var a := assets[|assets| - 1];
      Over(c, assets[..|assets| - 1]) + if Actual(c.balances, a) > Expected(c.positions, a) then [a] else []
  }

  function Under(c: Check, assets: seq<string>): seq<string>
    decreases |assets|
  {
    if assets == [] then []
    else
      var a := assets[|assets| - 1];
      Under(c, assets[..|assets| - 1]) + if Expected(c.positions, a) > Actual(c.balances, a) then [a] else []
  }

  /** What is said of an asset held above its expected amount. */
  function MoreMessage(c: Check, asset: string): seq<Message>
    requires Priced(c)
  {
    var drift := Drift(c, asset);
    if asset == c.quoteAsset || asset in c.ignored || (drift.Some? && drift.value < c.limit) then []
    else [HeldMore(asset, Expected(c.positions, asset), Actual(c.balances, asset), drift)]
  }

  function LessMessage(c: Check, asset: string): Message {
    var expected, actual := Expected(c.positions, asset), Actual(c.balances, asset);
    if actual == 0.0 then NoneHeld(asset, PositionsIn(c.positions, asset)) else HeldLess(asset, expected, actual)
  }

  function MoreMessages(c: Check, assets: seq<string>): seq<Message>
    requires Priced(c)
    decreases |assets|
  {
    if assets == [] then [] else MoreMessages(c, assets[..|assets| - 1]) + MoreMessage(c, assets[|assets| - 1])
  }

  function LessMessages(c: Check, assets: seq<string>): (ms: seq<Message>)
    ensures |ms| == |assets|
    decreases |assets|
  {
    if assets == [] then [] else LessMessages(c, assets[..|assets| - 1]) + [LessMessage(c, assets[|assets| - 1])]
  }

  function Report(c: Check): seq<Message>
    requires Priced(c)
  {
    var problems := MoreMessages(c, Over(c, Assets(c))) + LessMessages(c, Under(c, Assets(c)));
    if problems == [] then [AllChecksPassed] else problems
  }

  lemma {:induction false} SortedOut(c: Check, assets: seq<string>, a: string)
    ensures a in Over(c, assets) <==> a in assets && Actual(c.balances, a) > Expected(c.positions, a)
    ensures a in Under(c, assets) <==> a in assets && Actual(c.balances, a) < Expected(c.positions, a)
    decreases |assets|
  {
    if assets != [] {
      var front := assets[..|assets| - 1];
      SortedOut(c, front, a);
      assert assets == front + [assets[|assets| - 1]];
    }
  }

  lemma {:induction false} Said(c: Check, assets: seq<string>, a: string)
    requires Priced(c) && a in assets
    ensures forall m :: m in MoreMessage(c, a) ==> m in MoreMessages(c, assets)
    ensures LessMessage(c, a) in LessMessages(c, assets)
    decreases |assets|
  {
    var front, last := assets[..|assets| - 1], assets[|assets| - 1];
    assert assets == front + [last];
    if a != last {
      Said(c, front, a);
    }
  }

  /** An asset that neither side mentions is in order. */
  lemma UnknownInOrder(c: Check, asset: string)
    requires Priced(c) && asset !in Assets(c)
    ensures InOrder(c, asset)
  {
    var held, wanted := Distinct(BalanceAssets(c.balances)), Distinct(PositionAssets(c.positions));
    DistinctHas(held + wanted, asset);
    DistinctHas(BalanceAssets(c.balances), asset);
    DistinctHas(PositionAssets(c.positions), asset);
    NotHeld(c.balances, asset);
    NotExpected(c.positions, asset);
    ChecksWhatItShould(c, asset);
  }

  lemma {:induction false} SilentWhenInOrder(c: Check, assets: seq<string>)
    requires Priced(c) && forall asset: string :: InOrder(c, asset)
    ensures MoreMessages(c, Over(c, assets)) == [] && Under(c, assets) == []
    decreases |assets|
  {
    if assets != [] {
      var front, last := assets[..|assets| - 1], assets[|assets| - 1];
      SilentWhenInOrder(c, front);
      assert InOrder(c, last);
      ChecksWhatItShould(c, last);
      assert Under(c, assets) == Under(c, front);
      if Actual(c.balances, last) > Expected(c.positions, last) {
        OneMore(c, Over(c, front), last);
        assert MoreMessage(c, last) == [];
      } else {
        assert Over(c, assets) == Over(c, front);
      }
    }
  }

  lemma OneMore(c: Check, assets: seq<string>, a: string)
    requires Priced(c)
    ensures MoreMessages(c, assets + [a]) == MoreMessages(c, assets) + MoreMessage(c, a)
  {
    assert (assets + [a])[..|assets|] == assets;
  }

  /** One more asset's messages, behind those sent before. */
  lemma SentMore(c: Check, before: seq<Message>, assets: seq<string>, i: nat)
    requires Priced(c) && i < |assets|
    ensures (before + MoreMessages(c, assets[..i])) + MoreMessage(c, assets[i])
        == before + MoreMessages(c, assets[..i + 1])
  {
    assert assets[..i + 1][..i] == assets[..i];
    Associates(before, MoreMessages(c, assets[..i]), MoreMessage(c, assets[i]));
  }

  lemma SentLess(c: Check, before: seq<Message>, assets: seq<string>, i: nat)
    requires i < |assets|
    ensures (before + LessMessages(c, assets[..i])) + [LessMessage(c, assets[i])]
        == before + LessMessages(c, assets[..i + 1])
  {
    assert assets[..i + 1][..i] == assets[..i];
    Associates(before, LessMessages(c, assets[..i]), [LessMessage(c, assets[i])]);
  }

  lemma {:induction false} OnlyProblems(c: Check, assets: seq<string>)
    requires Priced(c)
    ensures AllChecksPassed !in MoreMessages(c, assets) && AllChecksPassed !in LessMessages(c, assets)
    decreases |assets|
  {
    if assets != [] {
      OnlyProblems(c, assets[..|assets| - 1]);
    }
  }

  lemma MoreReported(c: Check, asset: string)
    requires Priced(c) && asset in Assets(c) && Actual(c.balances, asset) > Expected(c.positions, asset)
    requires MoreMessage(c, asset) != []
    ensures MoreMessage(c, asset)[0] in Report(c)
  {
    SortedOut(c, Assets(c), asset);
    Said(c, Over(c, Assets(c)), asset);
    assert MoreMessage(c, asset)[0] in MoreMessages(c, Over(c, Assets(c)));
  }

  lemma LessReported(c: Check, asset: string)
    requires Priced(c) && asset in Assets(c) && Actual(c.balances, asset) < Expected(c.positions, asset)
    ensures LessMessage(c, asset) in Report(c)
  {
    SortedOut(c, Assets(c), asset);
    Said(c, Under(c, Assets(c)), asset);
  }

  /** Every asset out of order is reported, a shortage with what is missing. */
  lemma Reported(c: Check, asset: string)
    requires Priced(c) && !InOrder(c, asset)
    ensures var expected, actual := Wanted(c.positions, asset), Owned(c.balances, asset);
            if actual > expected then HeldMore(asset, expected, actual, Difference(c, asset)) in Report(c)
            else if actual == 0.0 then NoneHeld(asset, PositionsIn(c.positions, asset)) in Report(c)
            else HeldLess(asset, expected, actual) in Report(c)
  {
    ChecksWhatItShould(c, asset);
    if asset !in Assets(c) {
      UnknownInOrder(c, asset);
    } else if Actual(c.balances, asset) > Expected(c.positions, asset) {
      MoreReported(c, asset);
    } else {
      LessReported(c, asset);
    }
  }

  lemma {:induction false} SaidOf(c: Check, assets: seq<string>, m: Message)
    requires Priced(c)
    ensures m in MoreMessages(c, assets) ==> m.HeldMore? && m.asset in assets && m in MoreMessage(c, m.asset)
    ensures m in LessMessages(c, assets) ==>
      (m.NoneHeld? || m.HeldLess?) && m.asset in assets && m == LessMessage(c, m.asset)
    decreases |assets|
  {
    if assets != [] {
      var front, last := assets[..|assets| - 1], assets[|assets| - 1];
      SaidOf(c, front, m);
      assert assets == front + [last];
    }
  }

  lemma OverIsWrong(c: Check, m: Message)
    requires Priced(c) && m in MoreMessages(c, Over(c, Assets(c)))
    ensures m != AllChecksPassed && !InOrder(c, m.asset)
    ensures var expected, actual := Wanted(c.positions, m.asset), Owned(c.balances, m.asset);
            actual > expected && m == HeldMore(m.asset, expected, actual, Difference(c, m.asset))
  {
    SaidOf(c, Over(c, Assets(c)), m);
    SortedOut(c, Assets(c), m.asset);
    ChecksWhatItShould(c, m.asset);
  }

  lemma UnderIsWrong(c: Check, m: Message)
    requires Priced(c) && m in LessMessages(c, Under(c, Assets(c)))
    ensures m != AllChecksPassed && !InOrder(c, m.asset)
    ensures var expected, actual := Wanted(c.positions, m.asset), Owned(c.balances, m.asset);
            && actual < expected
            && m == if actual == 0.0 then NoneHeld(m.asset, PositionsIn(c.positions, m.asset))
                    else HeldLess(m.asset, expected, actual)
  {
    SaidOf(c, Under(c, Assets(c)), m);
    SortedOut(c, Assets(c), m.asset);
    ChecksWhatItShould(c, m.asset);
  }

  /** Nothing is said of an asset that is in order, and of any other only this. */
  lemma OnlyWhatIsWrong(c: Check, m: Message)
    requires Priced(c) && m in Report(c) && m != AllChecksPassed
    ensures !InOrder(c, m.asset)
    ensures var asset, expected, actual := m.asset, Wanted(c.positions, m.asset), Owned(c.balances, m.asset);
            m == if actual > expected then HeldMore(asset, expected, actual, Difference(c, asset))
                 else if actual == 0.0 then NoneHeld(asset, PositionsIn(c.positions, asset))
                 else HeldLess(asset, expected, actual)
  {
    if m in MoreMessages(c, Over(c, Assets(c))) {
      OverIsWrong(c, m);
    } else {
      UnderIsWrong(c, m);
    }
  }

  /** The success message is sent exactly when every asset is in order, and then it is the only message. */
  lemma PassesExactly(c: Check)
    requires Priced(c)
    ensures AllChecksPassed in Report(c) <==> forall asset: string :: InOrder(c, asset)
    ensures AllChecksPassed in Report(c) <==> Report(c) == [AllChecksPassed]
  {
    OnlyProblems(c, Over(c, Assets(c)));
    OnlyProblems(c, Under(c, Assets(c)));
    if forall asset: string :: InOrder(c, asset) {
      SilentWhenInOrder(c, Assets(c));
    } else {
      var asset: string :| !InOrder(c, asset);
      Reported(c, asset);
    }
  }

  // ---------- The checker ----------

  class PortfolioVsPositions {
    const quoteAsset: string
    const limit: real
    const ignored: seq<string>
    var sent: seq<Message>

    constructor (quoteAsset: string, limit: real, ignored: seq<string>)
      ensures this.quoteAsset == quoteAsset && this.limit == limit && this.ignored == ignored && sent == []
    {
      this.quoteAsset, this.limit, this.ignored, sent := quoteAsset, limit, ignored, [];
    }

    function CheckOf(positions: seq<Position>, balances: seq<Balance>, prices: SpotPortfolio.Prices,
                     convertTo: string): Check
    {
      Check(positions, balances, prices, quoteAsset, ignored, limit, convertTo)
    }

    static method DistinctNames(names: seq<string>) returns (r: seq<string>)
      ensures r == Distinct(names)
    {
      r := [];
      var i := 0;
      while i < |names|
        invariant 0 <= i <= |names| && r == Distinct(names[..i])
      {
        assert names[..i + 1][..i] == names[..i];
        DistinctHas(names[..i], names[i]);
        if names[i] !in r {
          r := r + [names[i]];
        }
        i := i + 1;
      }
      assert names[..i] == names;
    }

    static method ExpectedHoldings(positions: seq<Position>) returns (r: map<string, real>)
      ensures forall a :: a in r <==> a in PositionAssets(positions)
      ensures forall a :: a in r ==> r[a] == Expected(positions, a)
    {
      var names := DistinctNames(PositionAssets(positions));
      r := map[];
      var i := 0;
      while i < |names|
        invariant 0 <= i <= |names|
        invariant forall a :: a in r <==> a in names[..i]
        invariant forall a :: a in r ==> r[a] == Expected(positions, a)
      {
        r := r[names[i] := Expected(positions, names[i])];
        i := i + 1;
      }
      forall a ensures a in r <==> a in PositionAssets(positions) {
        DistinctHas(PositionAssets(positions), a);
      }
    }

    static method ActualHoldings(balances: seq<Balance>) returns (r: map<string, real>)
      ensures forall a :: (if a in r then r[a] else 0.0) == Actual(balances, a)
    {
      r := map[];
      var i := 0;
      while i < |balances|
        invariant 0 <= i <= |balances|
        invariant forall a :: (if a in r then r[a] else 0.0) == Actual(balances[..i], a)
      {
        assert balances[..i + 1][..i] == balances[..i];
        r := r[balances[i].asset := SpotPortfolio.Held(balances[i])];
        i := i + 1;
      }
      assert balances[..i] == balances;
    }

    static function Held(holdings: map<string, real>, asset: string): real {
      if asset in holdings then holdings[asset] else 0.0
    }

    static ghost predicate Matches(expected: map<string, real>, actual: map<string, real>, c: Check) {
      forall a: string :: Held(expected, a) == Expected(c.positions, a) && Held(actual, a) == Actual(c.balances, a)
    }

    static method Compare(assets: seq<string>, expected: map<string, real>, actual: map<string, real>, ghost c: Check)
      returns (less: seq<string>, more: seq<string>)
      requires Matches(expected, actual, c)
      ensures more == Over(c, assets) && less == Under(c, assets)
    {
      less, more := [], [];
      var i := 0;
      while i < |assets|
        invariant 0 <= i <= |assets| && more == Over(c, assets[..i]) && less == Under(c, assets[..i])
      {
        assert assets[..i + 1][..i] == assets[..i];
        var a := assets[i];
        var held, wanted := Held(actual, a), Held(expected, a);
        if held > wanted {
          more := more + [a];
        }
        if wanted > held {
          less := less + [a];
        }
        i := i + 1;
      }
      assert assets[..i] == assets;
    }

    ghost predicate Settings(c: Check, prices: SpotPortfolio.Prices, convertTo: string) {
      c.prices == prices && c.convertTo == convertTo && c.quoteAsset == quoteAsset && c.ignored == ignored
          && c.limit == limit
    }

    method CheckMore(a: string, expected: map<string, real>, actual: map<string, real>, prices: SpotPortfolio.Prices,
                     convertTo: string, ghost c: Check)
      returns (problem: bool)
      requires Priced(c) && Matches(expected, actual, c) && Settings(c, prices, convertTo)
      modifies this
      ensures sent == old(sent) + MoreMessage(c, a) && (problem <==> |sent| > |old(sent)|)
    {
      if a == quoteAsset || a in ignored {
        return false;
      }
      var e, h := Held(expected, a), Held(actual, a);
      var drift := SpotPortfolio.Convert(Abs(e - h), a, convertTo, prices);
      problem := drift.None? || drift.value >= limit;
      if problem {
        sent := sent + [HeldMore(a, e, h, drift)];
      }
    }

    method CheckLess(a: string, expected: map<string, real>, actual: map<string, real>, positions: seq<Position>,
                     ghost c: Check)
      requires Matches(expected, actual, c) && positions == c.positions
      modifies this
      ensures sent == old(sent) + [LessMessage(c, a)]
    {
      var e, h := Held(expected, a), Held(actual, a);
      if h == 0.0 {
        sent := sent + [NoneHeld(a, PositionsIn(positions, a))];
      } else {
        sent := sent + [HeldLess(a, e, h)];
      }
    }

    method ReportMore(more: seq<string>, expected: map<string, real>, actual: map<string, real>,
                      prices: SpotPortfolio.Prices, convertTo: string, ghost c: Check)
      returns (problem: bool)
      requires Priced(c) && Matches(expected, actual, c) && Settings(c, prices, convertTo)
      modifies this
      ensures sent == old(sent) + MoreMessages(c, more) && (problem <==> |sent| > |old(sent)|)
    {
      problem := false;
      var i := 0;
      while i < |more|
        invariant 0 <= i <= |more|
        invariant sent == old(sent) + MoreMessages(c, more[..i])
        invariant problem <==> |sent| > |old(sent)|
      {
        SentMore(c, old(sent), more, i);
        var bad := CheckMore(more[i], expected, actual, prices, convertTo, c);
        problem := problem || bad;
        i := i + 1;
      }
      assert more[..i] == more;
    }

    method ReportLess(less: seq<string>, expected: map<string, real>, actual: map<string, real>,
                      positions: seq<Position>, ghost c: Check)
      returns (problem: bool)
      requires Priced(c) && Matches(expected, actual, c) && positions == c.positions
      modifies this
      ensures sent == old(sent) + LessMessages(c, less) && (problem <==> less != [])
    {
      problem := false;
      var i := 0;
      while i < |less|
        invariant 0 <= i <= |less| && (problem <==> i > 0)
        invariant sent == old(sent) + LessMessages(c, less[..i])
      {
        SentLess(c, old(sent), less, i);
        CheckLess(less[i], expected, actual, positions, c);
        problem := true;
        i := i + 1;
      }
      assert less[..i] == less;
    }

    method RunOnce(positions: seq<Position>, balances: seq<Balance>, prices: SpotPortfolio.Prices, convertTo: string)
      requires SpotPortfolio.Positive(prices)
      modifies this
      ensures sent == old(sent) + Report(CheckOf(positions, balances, prices, convertTo))
    {
      ghost var c := CheckOf(positions, balances, prices, convertTo);
      var expected := ExpectedHoldings(positions);
      var actual := ActualHoldings(balances);
      var held := DistinctNames(BalanceAssets(balances));
      var wanted := DistinctNames(PositionAssets(positions));
      var assets := DistinctNames(held + wanted);
      forall a: string | a !in expected ensures Expected(positions, a) == 0.0 { NotExpected(positions, a); }
      var less, more := Compare(assets, expected, actual, c);
      var tooMuch := ReportMore(more, expected, actual, prices, convertTo, c);
      var tooLittle := ReportLess(less, expected, actual, positions, c);
      Associates(old(sent), MoreMessages(c, more), LessMessages(c, less));
      if !tooMuch && !tooLittle {
        sent := sent + [AllChecksPassed];
      }
    }
  }
}
