/**
 Edge70 breakout signals for one market: a candle that breaks the long or the short window, but not
 both, sets the market's direction, and a reversal of the stored direction is published.
 */
module Signals {
  import opened Directions
  import opened Options
  import opened CandleWindow

  // ---------- The stored direction ----------

  /** The live store expires its key; the backtest's keeps it. They report an unset key differently. */
  datatype StoreKind = Redis | Mock

  datatype Key = Unset | Set(direction: Direction, expiry: int)

  datatype Stored = Null | Undefined | Known(direction: Direction)

  const EXPIRY_MS: int := 25 * 60 * 60 * 1000

  function Get(kind: StoreKind, key: Key, now: int): Stored {
    match kind
    case Redis => if key.Set? && now < key.expiry then Known(key.direction) else Null
    case Mock => if key.Set? then Known(key.direction) else Undefined
  }

  function Write(d: Direction, now: int): Key {
    Set(d, now + EXPIRY_MS)
  }

  // ---------- One candle ----------

  datatype Edge = Edge(long: seq<Candle>, short: seq<Candle>, key: Key)

  datatype Parameters = Parameters(kind: StoreKind, longLength: nat, shortLength: nat)

  /** A candle, and when its two visits to the store happen. */
  datatype Tick = Tick(candle: Candle, read: int, write: int)

  /** A reversal is published; a breakout over an unset live key only makes a message. */
  datatype Emission =
    | Published(direction: Direction, price: real, time: int)
    | Possible(direction: Direction)

  predicate BreaksLong(p: Parameters, e: Edge, c: Candle) {
    |e.long| >= p.longLength && AboveAll(e.long, c.high)
  }

  predicate BreaksShort(p: Parameters, e: Edge, c: Candle) {
    |e.short| >= p.shortLength && BelowAll(e.short, c.low)
  }

  predicate TwoSided(p: Parameters, e: Edge, c: Candle) {
    BreaksLong(p, e, c) && BreaksShort(p, e, c)
  }

  /** The side of a candle that breaks exactly one window. */
  function Breakout(p: Parameters, e: Edge, c: Candle): Option<Direction> {
    if BreaksLong(p, e, c) == BreaksShort(p, e, c) then None
    else if BreaksLong(p, e, c) then Some(Long)
    else Some(Short)
  }

  /** The direction a candle stands for: its own breakout, or else the one stored. */
  function DirectionOf(p: Parameters, e: Edge, t: Tick): Option<Direction> {
    if TwoSided(p, e, t.candle) then None
    else if Breakout(p, e, t.candle).Some? then Breakout(p, e, t.candle)
    else match Get(p.kind, e.key, t.read)
         case Known(d) => Some(d)
         case _ => None
  }

  function NewKey(p: Parameters, e: Edge, t: Tick): Key {
    match DirectionOf(p, e, t)
    case None => e.key
    case Some(d) => Write(d, t.write)
  }

  function Emitted(p: Parameters, e: Edge, t: Tick): seq<Emission> {
    match DirectionOf(p, e, t)
    case None => []
    case Some(d) =>
      var previous := Get(p.kind, e.key, t.write);
      if previous == Null then [Possible(d)]
      else if previous == Known(d) then []
      else [Published(d, t.candle.close, t.candle.closeTime + 1)]
  }

  function Ingest(p: Parameters, e: Edge, t: Tick): Edge {
    Edge(Pushed(e.long, p.longLength, t.candle), Pushed(e.short, p.shortLength, t.candle), NewKey(p, e, t))
  }

  // ---------- Streams ----------

  function Run(p: Parameters, e: Edge, ts: seq<Tick>): Edge
    decreases |ts|
  {
    if ts == [] then e else Ingest(p, Run(p, e, ts[..|ts| - 1]), ts[|ts| - 1])
  }

  function Log(p: Parameters, e: Edge, ts: seq<Tick>): seq<Emission>
    decreases |ts|
  {
    if ts == [] then []
    else Log(p, e, ts[..|ts| - 1]) + Emitted(p, Run(p, e, ts[..|ts| - 1]), ts[|ts| - 1])
  }

  /** The state candle i of a stream finds. */
  function Before(p: Parameters, e: Edge, ts: seq<Tick>, i: nat): Edge
    requires i <= |ts|
  {
    Run(p, e, ts[..i])
  }

  /** Visits to the store happen in order of time. */
  predicate InOrder(ts: seq<Tick>) {
    && (forall i :: 0 <= i < |ts| ==> ts[i].read <= ts[i].write)
    && (forall i, j :: 0 <= i < j < |ts| ==> ts[i].write <= ts[j].read)
  }

  // ---------- What is published ----------

  /**
   A candle publishes exactly when it breaks one window against a direction the store knows, or, in the
   backtest's store, against an unset one.
   */
  lemma PublishesReversals(p: Parameters, e: Edge, t: Tick)
    requires t.read <= t.write
    ensures (exists x :: x in Emitted(p, e, t) && x.Published?) <==>
            && Breakout(p, e, t.candle).Some?
            && Get(p.kind, e.key, t.write) != Null
            && Get(p.kind, e.key, t.write) != Known(Breakout(p, e, t.candle).value)
    ensures forall x :: x in Emitted(p, e, t) && x.Published? ==>
              && Breakout(p, e, t.candle) == Some(x.direction)
              && x.price == t.candle.close && x.time == t.candle.closeTime + 1
  {
    if Emitted(p, e, t) != [] {
      assert Emitted(p, e, t)[0] in Emitted(p, e, t);
    }
  }

  ghost predicate LastIsStored(log: seq<Emission>, key: Key) {
    log != [] ==> key.Set? && key.direction == log[|log| - 1].direction
  }

  ghost predicate Alternates(log: seq<Emission>) {
    forall i :: 0 < i < |log| && log[i].Published? ==> log[i].direction != log[i - 1].direction
  }

  /** Whatever the start, every published signal reverses the last thing said, be that a signal or a message. */
  lemma {:induction false} SignalsAlternate(p: Parameters, e: Edge, ts: seq<Tick>)
    requires InOrder(ts)
    ensures Alternates(Log(p, e, ts)) && LastIsStored(Log(p, e, ts), Run(p, e, ts).key)
    decreases |ts|
  {
    if ts != [] {
      SignalsAlternate(p, e, ts[..|ts| - 1]);
    }
  }

  /** Candle k of a stream finds the key lapsed as it is about to write it. */
  ghost predicate FindsLapse(p: Parameters, e: Edge, ts: seq<Tick>, k: nat) {
    && k < |ts| && Before(p, e, ts, k).key.Set?
    && Get(p.kind, Before(p, e, ts, k).key, ts[k].write) == Null
  }

  lemma OneEmission(p: Parameters, e: Edge, t: Tick)
    ensures |Emitted(p, e, t)| <= 1
    ensures Emitted(p, e, t) != [] && Emitted(p, e, t)[0].Possible? ==> Get(p.kind, e.key, t.write) == Null
  {
  }

  lemma LastMessage(p: Parameters, e: Edge, front: seq<Tick>, t: Tick)
    requires InOrder(front) && Log(p, e, front) != []
    requires var said := Emitted(p, Run(p, e, front), t); said != [] && said[0].Possible?
    ensures Run(p, e, front).key.Set? && Get(p.kind, Run(p, e, front).key, t.write) == Null
  {
    SignalsAlternate(p, e, front);
    OneEmission(p, Run(p, e, front), t);
  }

  lemma LapseInFront(p: Parameters, e: Edge, ts: seq<Tick>, k: nat)
    requires ts != [] && FindsLapse(p, e, ts[..|ts| - 1], k)
    ensures FindsLapse(p, e, ts, k) && ts[..k] == ts[..|ts| - 1][..k]
  {
    assert ts[..k] == ts[..|ts| - 1][..k];
  }

  /** The last candle adds at most one entry. */
  lemma LastEntry(p: Parameters, e: Edge, ts: seq<Tick>, n: nat)
    requires ts != [] && |Log(p, e, ts[..|ts| - 1])| <= n < |Log(p, e, ts)|
    ensures n == |Log(p, e, ts[..|ts| - 1])|
    ensures var said := Emitted(p, Run(p, e, ts[..|ts| - 1]), ts[|ts| - 1]); said != [] && Log(p, e, ts)[n] == said[0]
  {
    OneEmission(p, Run(p, e, ts[..|ts| - 1]), ts[|ts| - 1]);
  }

  /** Any message but the first comes of a lapse, found by the candle that had entry n to add. */
  lemma {:induction false} MessageMeansLapse(p: Parameters, e: Edge, ts: seq<Tick>, n: nat) returns (k: nat)
    requires InOrder(ts) && 0 < n < |Log(p, e, ts)| && Log(p, e, ts)[n].Possible?
    ensures FindsLapse(p, e, ts, k) && |Log(p, e, ts[..k])| == n
    decreases |ts|
  {
    var front := ts[..|ts| - 1];
    if n < |Log(p, e, front)| {
      k := MessageMeansLapse(p, e, front, n);
      LapseInFront(p, e, ts, k);
    } else {
      LastEntry(p, e, ts, n);
      LastMessage(p, e, front, ts[|ts| - 1]);
      k := |front|;
    }
  }

  /**
   Two signals in a row agree only across a lapse: a candle between them, after the one that published the
   first and before the one that published the second, found the key lapsed.
   */
  lemma AgreeOnlyAcrossLapse(p: Parameters, e: Edge, ts: seq<Tick>, i: nat, j: nat) returns (k: nat)
    requires InOrder(ts) && i < j < |Log(p, e, ts)|
    requires var log := Log(p, e, ts);
             && log[i].Published? && log[j].Published? && log[i].direction == log[j].direction
             && forall n :: i < n < j ==> log[n].Possible?
    ensures FindsLapse(p, e, ts, k) && i < |Log(p, e, ts[..k])| < j
  {
    SignalsAlternate(p, e, ts);
    k := MessageMeansLapse(p, e, ts, j - 1);
  }

  ghost predicate AllPublished(log: seq<Emission>) {
    forall i :: 0 <= i < |log| ==> log[i].Published?
  }

  lemma BacktestEmission(p: Parameters, e: Edge, t: Tick)
    requires p.kind == Mock
    ensures AllPublished(Emitted(p, e, t))
  {
    assert Get(p.kind, e.key, t.write) != Null;
  }

  /** The backtest's store never lapses: all it emits is signals, in strict alternation. */
  lemma {:induction false} BacktestOnlyPublishes(p: Parameters, e: Edge, ts: seq<Tick>)
    requires p.kind == Mock && InOrder(ts)
    ensures AllPublished(Log(p, e, ts))
    ensures forall i :: 0 < i < |Log(p, e, ts)| ==> Log(p, e, ts)[i].direction != Log(p, e, ts)[i - 1].direction
    decreases |ts|
  {
    if ts != [] {
      var front := ts[..|ts| - 1];
      BacktestOnlyPublishes(p, e, front);
      BacktestEmission(p, Run(p, e, front), ts[|ts| - 1]);
    }
    SignalsAlternate(p, e, ts);
  }

  // ---------- Where the two stores differ ----------

  function Live(p: Parameters): Parameters {
    p.(kind := Redis)
  }

  function Mocked(p: Parameters): Parameters {
    p.(kind := Mock)
  }

  /**
   From the same key a candle makes the same emissions live and in the backtest exactly when it breaks both
   windows, when the key is live as it is written, or when it breaks neither and the key was not live.
   */
  lemma StoresAgreeExactly(p: Parameters, e: Edge, t: Tick)
    requires t.read <= t.write
    ensures Emitted(Live(p), e, t) == Emitted(Mocked(p), e, t) <==>
            || TwoSided(p, e, t.candle)
            || Get(Redis, e.key, t.write).Known?
            || (Breakout(p, e, t.candle) == None && !Get(Redis, e.key, t.read).Known?)
  {
    assert Breakout(Live(p), e, t.candle) == Breakout(p, e, t.candle) == Breakout(Mocked(p), e, t.candle);
    assert TwoSided(Live(p), e, t.candle) == TwoSided(p, e, t.candle) == TwoSided(Mocked(p), e, t.candle);
  }

  /** A rise to 11 over windows of one candle that reached 10, with nothing stored: a message here, a signal there. */
  lemma FirstBreakout(p: Parameters, e: Edge, t: Tick)
    requires p.longLength == 1 && p.shortLength == 1 && e.key == Unset
    requires e.long == [Candle(10.0, 8.0, 9.0, 0)] && e.short == e.long && t.candle == Candle(11.0, 9.0, 10.0, 1000)
    ensures Emitted(Live(p), e, t) == [Possible(Long)] && Emitted(Mocked(p), e, t) == [Published(Long, 10.0, 1001)]
  {
    assert BreaksLong(p, e, t.candle) && e.short[0].low == 8.0;
  }

  /** Every candle that finds the live store's key set finds it unexpired. */
  ghost predicate NeverLapses(p: Parameters, e: Edge, ts: seq<Tick>) {
    forall j :: 0 <= j < |ts| ==> !FindsLapse(Live(p), e, ts, j)
  }

  /** The live log says `Possible` where the backtest publishes first, and the same from there on. */
  ghost predicate DifferFirst(live: seq<Emission>, mocked: seq<Emission>) {
    && |live| == |mocked|
    && (live != [] ==> mocked[0].Published? && live[0] == Possible(mocked[0].direction) && live[1..] == mocked[1..])
  }

  ghost predicate Alike(start: Edge, live: Edge, mocked: Edge, a: seq<Emission>, b: seq<Emission>) {
    && live == mocked
    && if start.key.Set? then a == b && live.key.Set? else DifferFirst(a, b) && (a == [] <==> live.key == Unset)
  }

  /**
   While the key never lapses, live and backtest keep the same windows and direction over any stream, and
   the only difference in what they emit is the first emission over an unset key.
   */
  lemma {:induction false} StoresDifferOnlyFirst(p: Parameters, e: Edge, ts: seq<Tick>)
    requires InOrder(ts) && NeverLapses(p, e, ts)
    ensures Alike(e, Run(Live(p), e, ts), Run(Mocked(p), e, ts), Log(Live(p), e, ts), Log(Mocked(p), e, ts))
    decreases |ts|
  {
    if ts != [] {
      var front, t := ts[..|ts| - 1], ts[|ts| - 1];
      forall j | 0 <= j < |front| ensures !FindsLapse(Live(p), e, front, j) {
        assert ts[..j] == front[..j] && !FindsLapse(Live(p), e, ts, j);
      }
      StoresDifferOnlyFirst(p, e, front);
      assert !FindsLapse(Live(p), e, ts, |front|);
      AlikeStep(p, e, Run(Live(p), e, front), Log(Live(p), e, front), Log(Mocked(p), e, front), t);
    }
  }

  lemma AlikeStep(p: Parameters, start: Edge, e: Edge, a: seq<Emission>, b: seq<Emission>, t: Tick)
    requires Alike(start, e, e, a, b) && t.read <= t.write && (e.key.Set? ==> Get(Redis, e.key, t.write).Known?)
    ensures Alike(start, Ingest(Live(p), e, t), Ingest(Mocked(p), e, t),
                  a + Emitted(Live(p), e, t), b + Emitted(Mocked(p), e, t))
  {
    OneMoreTick(p, e, t);
    if start.key == Unset && a != [] {
      EmissionsJoined(a, b, Emitted(Live(p), e, t));
    } else if start.key == Unset {
      assert [] + Emitted(Live(p), e, t) == Emitted(Live(p), e, t)
          && [] + Emitted(Mocked(p), e, t) == Emitted(Mocked(p), e, t);
    }
  }

  lemma OneMoreTick(p: Parameters, e: Edge, t: Tick)
    requires t.read <= t.write && (e.key.Set? ==> Get(Redis, e.key, t.write).Known?)
    ensures Ingest(Live(p), e, t) == Ingest(Mocked(p), e, t)
    ensures var live, mocked := Emitted(Live(p), e, t), Emitted(Mocked(p), e, t);
            && (e.key.Set? ==> live == mocked && Ingest(Live(p), e, t).key.Set?)
            && (e.key == Unset ==>
                  && DifferFirst(live, mocked) && |live| <= 1
                  && (live == [] <==> Ingest(Live(p), e, t).key == Unset))
  {
  }

  lemma EmissionsJoined(a: seq<Emission>, b: seq<Emission>, x: seq<Emission>)
    requires DifferFirst(a, b) && a != []
    ensures DifferFirst(a + x, b + x)
  {
    assert (a + x)[1..] == a[1..] + x && (b + x)[1..] == b[1..] + x;
  }

  // ---------- What is stored ----------

  ghost predicate Quiet(p: Parameters, e: Edge, ts: seq<Tick>, j: nat)
    requires j < |ts|
  {
    Breakout(p, Before(p, e, ts, j), ts[j].candle) == None
  }

  ghost predicate QuietAfter(p: Parameters, e: Edge, ts: seq<Tick>, k: int)
    requires -1 <= k
  {
    forall j :: k < j < |ts| ==> Quiet(p, e, ts, j)
  }

  /**
   Candle k is the last of the stream to break exactly one window, to side d; or, for -1, none does, and d is
   the direction the stream started with.
   */
  ghost predicate LastBreakout(p: Parameters, e: Edge, ts: seq<Tick>, k: int, d: Direction) {
    && -1 <= k < |ts|
    && (if k < 0 then e.key.Set? && e.key.direction == d else Breakout(p, Before(p, e, ts, k), ts[k].candle) == Some(d))
    && QuietAfter(p, e, ts, k)
  }

  /** Candle j would refresh the key: it is not two-sided. */
  ghost predicate Refreshes(p: Parameters, e: Edge, ts: seq<Tick>, j: nat)
    requires j < |ts|
  {
    !TwoSided(p, Before(p, e, ts, j), ts[j].candle)
  }

  /** Candle j found the key live, if it looked. */
  ghost predicate FoundLive(p: Parameters, e: Edge, ts: seq<Tick>, j: nat)
    requires j < |ts|
  {
    Refreshes(p, e, ts, j) ==> Get(p.kind, Before(p, e, ts, j).key, ts[j].read).Known?
  }

  /** After candle k, or from the start for -1, the key was never found lapsed. */
  ghost predicate NoLapse(p: Parameters, e: Edge, ts: seq<Tick>, k: int)
    requires -1 <= k
  {
    forall j :: k < j < |ts| ==> FoundLive(p, e, ts, j)
  }

  lemma LastBefore(p: Parameters, e: Edge, ts: seq<Tick>)
    requires ts != []
    ensures Before(p, e, ts, |ts| - 1) == Run(p, e, ts[..|ts| - 1])
  {
  }

  /** What a candle finds does not depend on those after it. */
  lemma SameBefore(p: Parameters, e: Edge, ts: seq<Tick>, j: nat)
    requires j < |ts| - 1
    ensures var front := ts[..|ts| - 1];
            && Before(p, e, ts, j) == Before(p, e, front, j)
            && Quiet(p, e, ts, j) == Quiet(p, e, front, j) && Refreshes(p, e, ts, j) == Refreshes(p, e, front, j)
            && FoundLive(p, e, ts, j) == FoundLive(p, e, front, j)
  {
    assert ts[..j] == ts[..|ts| - 1][..j];
  }

  lemma QuietLonger(p: Parameters, e: Edge, ts: seq<Tick>, k: int)
    requires ts != [] && -1 <= k < |ts| - 1
    ensures QuietAfter(p, e, ts, k) <==> QuietAfter(p, e, ts[..|ts| - 1], k) && Quiet(p, e, ts, |ts| - 1)
  {
    var front := ts[..|ts| - 1];
    forall j | 0 <= j < |front| ensures Quiet(p, e, ts, j) == Quiet(p, e, front, j) {
      SameBefore(p, e, ts, j);
    }
  }

  /** Adding a candle that breaks nothing, or leaving it off, keeps the last breakout. */
  lemma BreakoutLonger(p: Parameters, e: Edge, ts: seq<Tick>, k: int, d: Direction)
    requires ts != [] && k < |ts| - 1
    ensures LastBreakout(p, e, ts, k, d) <==>
            && LastBreakout(p, e, ts[..|ts| - 1], k, d)
            && Breakout(p, Run(p, e, ts[..|ts| - 1]), ts[|ts| - 1].candle) == None
  {
    LastBefore(p, e, ts);
    if k >= 0 { SameBefore(p, e, ts, k); }
    if k >= -1 { QuietLonger(p, e, ts, k); }
  }

  lemma LapseLonger(p: Parameters, e: Edge, ts: seq<Tick>, k: int)
    requires ts != [] && -1 <= k < |ts| - 1
    ensures var e', t := Run(p, e, ts[..|ts| - 1]), ts[|ts| - 1];
            NoLapse(p, e, ts, k) <==>
            NoLapse(p, e, ts[..|ts| - 1], k) && (TwoSided(p, e', t.candle) || Get(p.kind, e'.key, t.read).Known?)
  {
    var front := ts[..|ts| - 1];
    LastBefore(p, e, ts);
    forall j | 0 <= j < |front| ensures FoundLive(p, e, ts, j) == FoundLive(p, e, front, j) {
      SameBefore(p, e, ts, j);
    }
    assert (forall j :: k < j < |ts| ==> FoundLive(p, e, ts, j)) <==>
           (forall j :: k < j < |front| ==> FoundLive(p, e, front, j)) && FoundLive(p, e, ts, |front|);
  }

  lemma KeyAfterQuietCandle(p: Parameters, e: Edge, t: Tick, now: int)
    requires Breakout(p, e, t.candle) == None && t.read <= t.write <= now
    requires Get(p.kind, Ingest(p, e, t).key, now).Known?
    ensures Get(p.kind, e.key, t.read).Known? && e.key.direction == Ingest(p, e, t).key.direction
  {
  }

  /**
   A live key holds the direction of the latest one-sided breakout, or the one it held at the start if there
   was none, and was never found lapsed since.
   */
  lemma {:induction false} StoredIsLastBreakout(p: Parameters, e: Edge, ts: seq<Tick>, now: int) returns (k: int)
    requires InOrder(ts) && (ts != [] ==> ts[|ts| - 1].write <= now)
    requires Get(p.kind, Run(p, e, ts).key, now).Known?
    ensures LastBreakout(p, e, ts, k, Run(p, e, ts).key.direction) && NoLapse(p, e, ts, k)
    decreases |ts|
  {
    if ts == [] {
      return -1;
    }
    var front, t := ts[..|ts| - 1], ts[|ts| - 1];
    var e' := Run(p, e, front);
    LastBefore(p, e, ts);
    if Breakout(p, e', t.candle).Some? {
      k := |front|;
    } else {
      KeyAfterQuietCandle(p, e', t, now);
      k := StoredIsLastBreakout(p, e, front, t.read);
      BreakoutLonger(p, e, ts, k, e'.key.direction);
      LapseLonger(p, e, ts, k);
    }
  }

  /** Conversely that is the direction the key holds, unless it was found lapsed since. */
  lemma {:induction false} LastBreakoutIsStored(p: Parameters, e: Edge, ts: seq<Tick>, k: int, d: Direction)
    requires LastBreakout(p, e, ts, k, d) && NoLapse(p, e, ts, k)
    ensures Run(p, e, ts).key.Set? && Run(p, e, ts).key.direction == d
    decreases |ts|
  {
    if ts != [] {
      var front := ts[..|ts| - 1];
      LastBefore(p, e, ts);
      if k < |front| {
        BreakoutLonger(p, e, ts, k, d);
        LapseLonger(p, e, ts, k);
        LastBreakoutIsStored(p, e, front, k, d);
        KeyKept(p, Run(p, e, front), ts[|front|]);
      }
    }
  }

  lemma KeyKept(p: Parameters, e: Edge, t: Tick)
    requires Breakout(p, e, t.candle) == None && e.key.Set?
    requires TwoSided(p, e, t.candle) || Get(p.kind, e.key, t.read).Known?
    ensures Ingest(p, e, t).key.Set? && Ingest(p, e, t).key.direction == e.key.direction
  {
  }

  /** In the backtest's store that is the whole story, as nothing there lapses. */
  lemma BacktestStoresLastBreakout(p: Parameters, e: Edge, ts: seq<Tick>, k: int, d: Direction, now: int)
    requires p.kind == Mock && LastBreakout(p, e, ts, k, d)
    ensures Get(p.kind, Run(p, e, ts).key, now) == Known(d)
  {
    assert Before(p, e, ts, k + 1).key.Set? by {
      if k >= 0 { AfterCandle(p, e, ts, k); }
    }
    forall j | k < j < |ts| ensures FoundLive(p, e, ts, j) {
      KeyStaysSet(p, e, ts, k + 1, j);
    }
    LastBreakoutIsStored(p, e, ts, k, d);
  }

  lemma AfterCandle(p: Parameters, e: Edge, ts: seq<Tick>, k: nat)
    requires k < |ts|
    ensures Before(p, e, ts, k + 1) == Ingest(p, Before(p, e, ts, k), ts[k])
  {
    assert ts[..k + 1][..k] == ts[..k];
  }

  lemma {:induction false} KeyStaysSet(p: Parameters, e: Edge, ts: seq<Tick>, i: nat, j: nat)
    requires i <= j <= |ts| && Before(p, e, ts, i).key.Set?
    ensures Before(p, e, ts, j).key.Set?
    decreases j
  {
    if i < j {
      KeyStaysSet(p, e, ts, i, j - 1);
      AfterCandle(p, e, ts, j - 1);
    }
  }

  /**
   A live direction lapses only for want of candles: after a candle that is not two-sided left the key
   live, it stays live for 25 hours, whatever two-sided candles come in between; and then, live, it is gone.
   */
  lemma {:induction false} LapseNeedsSilence(p: Parameters, e: Edge, ts: seq<Tick>, k: nat, now: int)
    requires k < |ts| && Refreshes(p, e, ts, k)
    requires forall j :: k < j < |ts| ==> !Refreshes(p, e, ts, j)
    requires Get(p.kind, Before(p, e, ts, k + 1).key, ts[k].write).Known?
    requires ts[k].read <= ts[k].write && ts[k].write <= now
    ensures Get(p.kind, Run(p, e, ts).key, now) ==
            if p.kind == Redis && now - ts[k].write >= 25 * 60 * 60 * 1000 then Null
            else Get(p.kind, Before(p, e, ts, k + 1).key, ts[k].write)
    decreases |ts|
  {
    var front := ts[..|ts| - 1];
    AfterCandle(p, e, ts, k);
    if k < |front| {
      LastBefore(p, e, ts);
      forall j | k <= j < |front|
        ensures Refreshes(p, e, front, j) <==> Refreshes(p, e, ts, j)
        ensures Before(p, e, ts, j) == Before(p, e, front, j)
      {
        SameBefore(p, e, ts, j);
      }
      AfterCandle(p, e, front, k);
      LapseNeedsSilence(p, e, front, k, now);
      assert !Refreshes(p, e, ts, |front|);
    } else {
      assert ts[..k + 1] == ts;
    }
  }

  // ---------- Preloading ----------

  function Candles(ts: seq<Tick>): seq<Candle> {
    seq(|ts|, i requires 0 <= i < |ts| => ts[i].candle)
  }

  function Fresh(p: Parameters, initial: seq<Candle>, key: Key): Edge {
    Edge(Window(initial, p.longLength), Window(initial, p.shortLength), key)
  }

  lemma OneMoreCandle(initial: seq<Candle>, ts: seq<Tick>)
    requires ts != []
    ensures initial + Candles(ts) == (initial + Candles(ts[..|ts| - 1])) + [ts[|ts| - 1].candle]
  {
  }

  /** The windows after a stream are those of the whole history. */
  lemma {:induction false} WindowsAfter(p: Parameters, initial: seq<Candle>, key: Key, ts: seq<Tick>)
    requires p.longLength >= 1 && p.shortLength >= 1
    ensures var e := Run(p, Fresh(p, initial, key), ts);
            && e.long == Window(initial + Candles(ts), p.longLength)
            && e.short == Window(initial + Candles(ts), p.shortLength)
    decreases |ts|
  {
    if ts == [] {
      assert initial + Candles(ts) == initial;
    } else {
      var front, c := ts[..|ts| - 1], ts[|ts| - 1].candle;
      WindowsAfter(p, initial, key, front);
      OneMoreCandle(initial, ts);
      PushMovesWindow(initial + Candles(front), p.longLength, c);
      PushMovesWindow(initial + Candles(front), p.shortLength, c);
    }
  }

  /**
   An edge preloaded with a history and one that was fed it see the same breakouts on every candle of
   every later stream, whatever their stores hold.
   */
  lemma PreloadedSeesTheSame(p: Parameters, history: seq<Tick>, later: seq<Tick>, key: Key, key': Key, c: Candle)
    requires p.longLength >= 1 && p.shortLength >= 1
    ensures var preloaded := Run(p, Fresh(p, Candles(history), key), later);
            var fed := Run(p, Fresh(p, [], key'), history + later);
            && preloaded.long == fed.long && preloaded.short == fed.short
            && Breakout(p, preloaded, c) == Breakout(p, fed, c) && TwoSided(p, preloaded, c) == TwoSided(p, fed, c)
  {
    WindowsAfter(p, Candles(history), key, later);
    WindowsAfter(p, [], key', history + later);
    CandlesJoined(history, later);
    SameWindows(p, Run(p, Fresh(p, Candles(history), key), later), Run(p, Fresh(p, [], key'), history + later), c);
  }

  lemma CandlesJoined(a: seq<Tick>, b: seq<Tick>)
    ensures [] + Candles(a + b) == Candles(a) + Candles(b)
  {
  }

  lemma SameWindows(p: Parameters, e: Edge, f: Edge, c: Candle)
    requires e.long == f.long && e.short == f.short
    ensures Breakout(p, e, c) == Breakout(p, f, c) && TwoSided(p, e, c) == TwoSided(p, f, c)
  {
  }

  // ---------- Seen from the candles alone ----------

  /** The candle's high is above that of each of the last `n` candles, and there are so many. */
  predicate Rises(all: seq<Candle>, n: nat, c: Candle) {
    |all| >= n && forall j :: |all| - n <= j < |all| ==> all[j].high < c.high
  }

  /** Its low is below that of each of them. */
  predicate Falls(all: seq<Candle>, n: nat, c: Candle) {
    |all| >= n && forall j :: |all| - n <= j < |all| ==> c.low < all[j].low
  }

  lemma WindowRises(all: seq<Candle>, n: nat, c: Candle)
    ensures |Window(all, n)| >= n && AboveAll(Window(all, n), c.high) <==> Rises(all, n, c)
    ensures |Window(all, n)| >= n && BelowAll(Window(all, n), c.low) <==> Falls(all, n, c)
  {
    if |all| >= n {
      var w := Window(all, n);
      assert forall i :: 0 <= i < n ==> w[i] == all[|all| - n + i];
      forall j | |all| - n <= j < |all| ensures all[j] == w[j - (|all| - n)] {
      }
    }
  }

  /** A breakout is one over the last candles of everything the edge was started from or fed. */
  lemma BreaksExactly(p: Parameters, initial: seq<Candle>, key: Key, ts: seq<Tick>, c: Candle)
    requires p.longLength >= 1 && p.shortLength >= 1
    ensures var e, all := Run(p, Fresh(p, initial, key), ts), initial + Candles(ts);
            && (BreaksLong(p, e, c) <==> Rises(all, p.longLength, c))
            && (BreaksShort(p, e, c) <==> Falls(all, p.shortLength, c))
  {
    WindowsAfter(p, initial, key, ts);
    WindowRises(initial + Candles(ts), p.longLength, c);
    WindowRises(initial + Candles(ts), p.shortLength, c);
  }

  /** The direction the live store, or the backtest's, reports for a key. */
  predicate Reports(kind: StoreKind, key: Key, now: int, d: Direction) {
    key.Set? && key.direction == d && (kind == Redis ==> now < key.expiry)
  }

  /** The store reports nothing, and reports it in a way that keeps the candle from publishing. */
  predicate Silent(kind: StoreKind, key: Key, now: int) {
    kind == Redis && (key == Unset || now >= key.expiry)
  }

  /** The candle stands for a direction: its own, or the stored one where it breaks neither side. */
  predicate StandsFor(p: Parameters, all: seq<Candle>, key: Key, t: Tick, d: Direction) {
    var up, down := Rises(all, p.longLength, t.candle), Falls(all, p.shortLength, t.candle);
    if up && !down then d == Long
    else if down && !up then d == Short
    else !up && Reports(p.kind, key, t.read, d)
  }

  /** One candle as the candles before it and the stored key determine it. */
  ghost predicate Answers(p: Parameters, all: seq<Candle>, key: Key, t: Tick, said: seq<Emission>, key': Key) {
    && (forall d :: said == [Published(d, t.candle.close, t.candle.closeTime + 1)] <==>
          StandsFor(p, all, key, t, d) && !Silent(p.kind, key, t.write) && !Reports(p.kind, key, t.write, d))
    && (forall d :: said == [Possible(d)] <==> StandsFor(p, all, key, t, d) && Silent(p.kind, key, t.write))
    && (said != [] ==> exists d ::
          && StandsFor(p, all, key, t, d)
          && (said == [Possible(d)] || said == [Published(d, t.candle.close, t.candle.closeTime + 1)]))
    && (forall d :: StandsFor(p, all, key, t, d) ==> key' == Set(d, t.write + 25 * 60 * 60 * 1000))
    && ((forall d :: !StandsFor(p, all, key, t, d)) ==> key' == key)
  }

  lemma DirectionExactly(p: Parameters, e: Edge, all: seq<Candle>, t: Tick, d: Direction)
    requires BreaksLong(p, e, t.candle) <==> Rises(all, p.longLength, t.candle)
    requires BreaksShort(p, e, t.candle) <==> Falls(all, p.shortLength, t.candle)
    ensures DirectionOf(p, e, t) == Some(d) <==> StandsFor(p, all, e.key, t, d)
  {
  }

  /** On every stream every candle answers so: what is said, and what is stored. */
  lemma AnswersExactly(p: Parameters, initial: seq<Candle>, key: Key, ts: seq<Tick>, t: Tick)
    requires p.longLength >= 1 && p.shortLength >= 1
    ensures var e, all := Run(p, Fresh(p, initial, key), ts), initial + Candles(ts);
            Answers(p, all, e.key, t, Emitted(p, e, t), Ingest(p, e, t).key)
  {
    var e, all := Run(p, Fresh(p, initial, key), ts), initial + Candles(ts);
    BreaksExactly(p, initial, key, ts, t.candle);
    forall d ensures DirectionOf(p, e, t) == Some(d) <==> StandsFor(p, all, e.key, t, d) {
      DirectionExactly(p, e, all, t, d);
    }
    EmissionExactly(p, e, t);
  }

  lemma EmissionExactly(p: Parameters, e: Edge, t: Tick)
    ensures var d, said := DirectionOf(p, e, t), Emitted(p, e, t);
            && (d == None ==> said == [] && Ingest(p, e, t).key == e.key)
            && (d.Some? ==>
                  && Ingest(p, e, t).key == Set(d.value, t.write + 25 * 60 * 60 * 1000)
                  && said == if Silent(p.kind, e.key, t.write) then [Possible(d.value)]
                             else if Reports(p.kind, e.key, t.write, d.value) then []
                             else [Published(d.value, t.candle.close, t.candle.closeTime + 1)])
  {
  }
}
