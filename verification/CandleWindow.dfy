/** The bounded history of closed candles that breakouts are measured against. */
module CandleWindow {

  datatype Candle = Candle(high: real, low: real, close: real, closeTime: int)

  /** The last `length` candles of all there were. */
  function Window(all: seq<Candle>, length: nat): seq<Candle> {
    if |all| <= length then all else all[|all| - length..]
  }

  function Pushed(w: seq<Candle>, length: nat, c: Candle): seq<Candle> {
    (if |w| >= length && w != [] then w[1..] else w) + [c]
  }

  /** Pushing onto a window of a history gives the window of the longer history. */
  lemma PushMovesWindow(all: seq<Candle>, length: nat, c: Candle)
    requires length >= 1
    ensures Pushed(Window(all, length), length, c) == Window(all + [c], length)
  {
  }

  function PushAll(w: seq<Candle>, length: nat, cs: seq<Candle>): seq<Candle>
    decreases |cs|
  {
    if cs == [] then w else PushAll(Pushed(w, length, cs[0]), length, cs[1..])
  }

  /** After any pushes the window is the last candles of what it started from and what was pushed. */
  lemma {:induction false} WindowOfPushed(initial: seq<Candle>, length: nat, cs: seq<Candle>)
    requires length >= 1
    ensures PushAll(Window(initial, length), length, cs) == Window(initial + cs, length)
    decreases |cs|
  {
    if cs == [] {
      assert initial + cs == initial;
    } else {
      PushMovesWindow(initial, length, cs[0]);
      WindowOfPushed(initial + [cs[0]], length, cs[1..]);
      assert initial + [cs[0]] + cs[1..] == initial + cs;
    }
  }

  /** The candle at `i` reaches the highest high of the window, and none before it does. */
  ghost predicate EarliestHighest(w: seq<Candle>, i: nat) {
    && i < |w|
    && (forall j :: 0 <= j < |w| ==> w[j].high <= w[i].high)
    && (forall j :: 0 <= j < i ==> w[j].high < w[i].high)
  }

  ghost predicate EarliestLowest(w: seq<Candle>, i: nat) {
    && i < |w|
    && (forall j :: 0 <= j < |w| ==> w[i].low <= w[j].low)
    && (forall j :: 0 <= j < i ==> w[i].low < w[j].low)
  }

  /** A high above every candle of the window, and a low below every one. */
  predicate AboveAll(w: seq<Candle>, high: real) {
    forall j :: 0 <= j < |w| ==> w[j].high < high
  }

  predicate BelowAll(w: seq<Candle>, low: real) {
    forall j :: 0 <= j < |w| ==> low < w[j].low
  }

  class LimitedLengthCandlesHistory {
    var candles: seq<Candle>
    const length: nat

    ghost predicate Valid()
      reads this
    {
      1 <= length && |candles| <= length
    }

    constructor (length: nat, initial: seq<Candle>)
      requires 1 <= length
      ensures Valid() && this.length == length && candles == Window(initial, length)
    {
      this.length := length;
      candles := if |initial| <= length then initial else initial[|initial| - length..];
    }

    predicate Full()
      reads this
    {
      |candles| >= length
    }

    method Push(c: Candle)
      requires Valid()
      modifies this
      ensures Valid() && candles == Pushed(old(candles), length, c)
    {
      if |candles| >= length {
        candles := candles[1..];
      }
      candles := candles + [c];
    }

    /** Fails on an empty history. */
    method GetHighestValue() returns (ok: bool, high: real, candle: Candle)
      ensures ok == (candles != [])
      ensures ok ==> exists i: nat :: EarliestHighest(candles, i) && high == candles[i].high && candle == candles[i]
    {
      if candles == [] {
        return false, 0.0, Candle(0.0, 0.0, 0.0, 0);
      }
      ok, high, candle := true, candles[0].high, candles[0];
      ghost var at: nat := 0;
      var i := 0;
      while i < |candles|
        invariant 0 <= i <= |candles| && at < |candles| && candle == candles[at] && high == candle.high
        invariant forall j :: 0 <= j < i ==> candles[j].high <= high
        invariant forall j :: 0 <= j < at ==> candles[j].high < high
      {
        if candles[i].high > high {
          high, candle, at := candles[i].high, candles[i], i;
        }
        i := i + 1;
      }
      assert EarliestHighest(candles, at);
    }

    method GetLowestValue() returns (ok: bool, low: real, candle: Candle)
      ensures ok == (candles != [])
      ensures ok ==> exists i: nat :: EarliestLowest(candles, i) && low == candles[i].low && candle == candles[i]
    {
      if candles == [] {
        return false, 0.0, Candle(0.0, 0.0, 0.0, 0);
      }
      ok, low, candle := true, candles[0].low, candles[0];
      ghost var at: nat := 0;
      var i := 0;
      while i < |candles|
        invariant 0 <= i <= |candles| && at < |candles| && candle == candles[at] && low == candle.low
        invariant forall j :: 0 <= j < i ==> low <= candles[j].low
        invariant forall j :: 0 <= j < at ==> low < candles[j].low
      {
        if candles[i].low < low {
          low, candle, at := candles[i].low, candles[i], i;
        }
        i := i + 1;
      }
      assert EarliestLowest(candles, at);
    }
  }
}
