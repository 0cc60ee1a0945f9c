/** The edge70 objects: the direction store, the signal generator of one market, and its initialiser. */
module Edge70 {
  import opened Directions
  import opened Options
  import opened CandleWindow
  import opened Signals

  class DirectionPersistence {
    const kind: StoreKind
    var key: Key

    constructor (kind: StoreKind)
      ensures this.kind == kind && key == Unset
    {
      this.kind, key := kind, Unset;
    }

    function GetDirection(now: int): Stored
      reads this
    {
      Get(kind, key, now)
    }

    /** Writes every time, so that a live key's expiry is renewed. */
    method SetDirection(d: Direction, now: int) returns (previous: Stored)
      modifies this
      ensures previous == old(GetDirection(now)) && key == Write(d, now)
    {
      previous := GetDirection(now);
      key := Set(d, now + EXPIRY_MS);
    }
  }

  class Edge70Signals {
    const store: DirectionPersistence
    const long: LimitedLengthCandlesHistory
    const short: LimitedLengthCandlesHistory
    var emissions: seq<Emission>

    ghost predicate Valid()
      reads this, long, short
    {
      long != short && long.Valid() && short.Valid()
    }

    ghost function Params(): Parameters {
      Parameters(store.kind, long.length, short.length)
    }

    ghost function View(): Edge
      reads this, long, short, store
    {
      Edge(long.candles, short.candles, store.key)
    }

    /** The last candle handed over must have closed. */
    constructor (store: DirectionPersistence, longLength: nat, shortLength: nat, initial: seq<Candle>, now: int)
      requires longLength >= 1 && shortLength >= 1
      requires initial != [] ==> initial[|initial| - 1].closeTime <= now
      ensures Valid() && this.store == store && fresh(long) && fresh(short) && emissions == []
      ensures Params() == Parameters(store.kind, longLength, shortLength)
      ensures View() == Fresh(Params(), initial, store.key)
    {
      var l := new LimitedLengthCandlesHistory(longLength, initial);
      var s := new LimitedLengthCandlesHistory(shortLength, initial);
      this.store, long, short, emissions := store, l, s, [];
    }

    predicate Full()
      reads this, long, short
    {
      long.Full() && short.Full()
    }

    method CheckForLongSignal(c: Candle) returns (signal: bool)
      requires Valid()
      ensures signal == BreaksLong(Params(), View(), c)
      ensures signal <==>
        |long.candles| >= long.length && forall i :: 0 <= i < |long.candles| ==> long.candles[i].high < c.high
    {
      if !long.Full() {
        return false;
      }
      var ok, highest, _ := long.GetHighestValue();
      signal := c.high > highest;
    }

    method CheckForShortSignal(c: Candle) returns (signal: bool)
      requires Valid()
      ensures signal == BreaksShort(Params(), View(), c)
      ensures signal <==>
        |short.candles| >= short.length && forall i :: 0 <= i < |short.candles| ==> c.low < short.candles[i].low
    {
      if !short.Full() {
        return false;
      }
      var ok, lowest, _ := short.GetLowestValue();
      signal := c.low < lowest;
    }

    /** The part that can return early; whatever it does, the candle is then pushed. */
    method Decide(t: Tick)
      requires Valid()
      modifies this, store
      ensures Valid() && long.candles == old(long.candles) && short.candles == old(short.candles)
      ensures store.key == NewKey(Params(), old(View()), t)
      ensures emissions == old(emissions) + Emitted(Params(), old(View()), t)
    {
      var c := t.candle;
      var signalLong := CheckForLongSignal(c);
      var signalShort := CheckForShortSignal(c);
      var stored := store.GetDirection(t.read);
      if signalLong && signalShort {
        return; // both directions: the stored one is left as it is, expiry included
      }
      var direction: Direction;
      if signalLong {
        direction := Long;
      } else if signalShort {
        direction := Short;
      } else if stored.Known? {
        direction := stored.direction;
      } else {
        return; // no stored direction and no new one
      }
      var previous := store.SetDirection(direction, t.write);
      if previous == Null {
        emissions := emissions + [Possible(direction)];
        return;
      }
      if previous == Known(direction) {
        return;
      }
      emissions := emissions + [Published(direction, c.close, c.closeTime + 1)];
    }

    method IngestNewCandle(t: Tick)
      requires Valid()
      modifies this, store, long, short
      ensures Valid() && View() == Ingest(Params(), old(View()), t)
      ensures emissions == old(emissions) + Emitted(Params(), old(View()), t)
    {
      Decide(t);
      long.Push(t.candle);
      short.Push(t.candle);
    }
  }

  /** The candles a fetch returned, without a last one that has not closed. */
  function Closed(candles: seq<Candle>, now: int): seq<Candle> {
    if candles != [] && candles[|candles| - 1].closeTime > now then candles[..|candles| - 1] else candles
  }

  class MarketDirectionInitialiser {
    const store: DirectionPersistence
    const longLength: nat
    const shortLength: nat

    constructor (store: DirectionPersistence, longLength: nat, shortLength: nat)
      ensures this.store == store && this.longLength == longLength && this.shortLength == shortLength
    {
      this.store, this.longLength, this.shortLength := store, longLength, shortLength;
    }

    /**
     Replays the closed candles through an edge that starts empty and whose signals go nowhere, leaving
     the direction they lead to in the store. `clock` gives the time of each visit to the store.
     */
    method Run(candles: seq<Candle>, now: int, clock: seq<(int, int)>) returns (ok: bool, ghost ts: seq<Tick>)
      requires longLength >= 1 && shortLength >= 1 && |clock| == |candles|
      modifies store
      ensures ok == (candles != [])
      ensures ok ==> Candles(ts) == if candles[|candles| - 1].closeTime > now then candles[..|candles| - 1] else candles
      ensures !ok ==> ts == []
      ensures forall i :: 0 <= i < |ts| ==> ts[i].read == clock[i].0 && ts[i].write == clock[i].1
      ensures var p := Parameters(store.kind, longLength, shortLength);
              store.key == Signals.Run(p, Fresh(p, [], old(store.key)), ts).key
    {
      ts := [];
      if candles == [] {
        return false, [];
      }
      var closed := Closed(candles, now);
      var edge := new Edge70Signals(store, longLength, shortLength, [], now);
      ghost var start := edge.View();
      var i := 0;
      while i < |closed|
        invariant 0 <= i <= |closed| && |ts| == i && edge.Valid() && fresh(edge) && fresh(edge.long)
            && fresh(edge.short)
        invariant edge.store == store && edge.Params() == Parameters(store.kind, longLength, shortLength)
        invariant forall j :: 0 <= j < i ==> ts[j] == Tick(closed[j], clock[j].0, clock[j].1)
        invariant edge.View() == Signals.Run(edge.Params(), start, ts)
      {
        var t := Tick(closed[i], clock[i].0, clock[i].1);
        edge.IngestNewCandle(t);
        assert (ts + [t])[..|ts|] == ts;
        ts := ts + [t];
        i := i + 1;
      }
      assert Candles(ts) == closed;
      ok := true;
    }
  }
}
