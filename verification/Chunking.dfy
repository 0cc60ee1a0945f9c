/**
 Fetching daily candles in chunks. The exchange answers one request with at most 500 candles, so a long
 range is cut into requests of 489 days. Both ends of a request are inclusive.
 */
module Chunking {
  import opened Options

  const DAY: int := 86_400_000
  const LONGEST: int := 490 * DAY
  const CHUNK: int := 489 * DAY
  const LIMIT: nat := 500

  datatype Candle = Candle(openTime: int, close: string)

  datatype Request = Request(start: int, end: int)

  datatype Reply = Reply(candles: seq<Candle>, requests: seq<Request>)

  /** The candles of a market in order, at least a day apart. */
  ghost predicate Daily(market: seq<Candle>) {
    forall i, j :: 0 <= i < j < |market| ==> market[i].openTime + DAY <= market[j].openTime
  }

  /** The candles opening in a range, both ends included. */
  function Between(market: seq<Candle>, start: int, end: int): seq<Candle>
    decreases |market|
  {
    if market == [] then []
    else if start <= market[0].openTime <= end then [market[0]] + Between(market[1..], start, end)
    else Between(market[1..], start, end)
  }

  /** One request to the exchange. */
  function Collect(market: seq<Candle>, r: Request): seq<Candle> {
    var found := Between(market, r.start, r.end);
    if |found| <= LIMIT then found else found[..LIMIT]
  }

  /** None where the source throws, the range being no days long. */
  function CandlesBetween(market: seq<Candle>, start: int, end: int): Option<Reply>
    decreases if end > start then end - start else 0
  {
    if start == end then None
    else if end - start > LONGEST then
      var mid := start + CHUNK;
      match CandlesBetween(market, start, mid)
      case None => None
      case Some(a) =>
        match CandlesBetween(market, mid, end)
        case None => None
        case Some(b) => Some(Reply(a.candles + b.candles, a.requests + b.requests))
    else
      var r := Request(start, end);
      Some(Reply(Collect(market, r), [r]))
  }

  // ---------- One request ----------

  lemma {:induction false} NoneAfter(market: seq<Candle>, start: int, end: int)
    requires forall i :: 0 <= i < |market| ==> market[i].openTime > end
    ensures Between(market, start, end) == []
    decreases |market|
  {
    if market != [] { NoneAfter(market[1..], start, end); }
  }

  lemma {:induction false} StartLater(market: seq<Candle>, start: int, later: int, end: int)
    requires start <= later && forall i :: 0 <= i < |market| ==> market[i].openTime >= later
    ensures Between(market, start, end) == Between(market, later, end)
    decreases |market|
  {
    if market != [] { StartLater(market[1..], start, later, end); }
  }

  /** At most one candle for each day of the range, and one more. */
  lemma {:induction false} OneADay(market: seq<Candle>, start: int, end: int)
    requires Daily(market)
    ensures start > end ==> Between(market, start, end) == []
    ensures start <= end ==> (|Between(market, start, end)| - 1) * DAY <= end - start
    decreases |market|
  {
    if market != [] {
      var t, rest := market[0].openTime, market[1..];
      OneADay(rest, start, end);
      if start <= t <= end {
        StartLater(rest, start, t + DAY, end);
        OneADay(rest, t + DAY, end);
      }
    }
  }

  lemma CollectsAll(market: seq<Candle>, r: Request)
    requires Daily(market) && r.end - r.start <= LONGEST
    ensures Collect(market, r) == Between(market, r.start, r.end)
  {
    OneADay(market, r.start, r.end);
  }

  // ---------- All requests ----------

  /** An instant where two of the requests made for a range meet. */
  predicate Boundary(start: int, end: int, t: int) {
    start < t && t + DAY < end && (t - start) % CHUNK == 0
  }

  /** The same candles in the same order, those opening at a boundary twice. */
  function Repeated(cs: seq<Candle>, start: int, end: int): seq<Candle>
    decreases |cs|
  {
    if cs == [] then []
    else (if Boundary(start, end, cs[0].openTime) then [cs[0], cs[0]] else [cs[0]]) + Repeated(cs[1..], start, end)
  }

  lemma BoundaryFrom(start: int, end: int, t: int)
    requires end - start > LONGEST
    ensures Boundary(start, end, t) <==> t == start + CHUNK || Boundary(start + CHUNK, end, t)
  {
    assert (t - start) % CHUNK == (t - start - CHUNK) % CHUNK;
    if start < t < start + CHUNK {
      assert (t - start) % CHUNK == t - start;
    }
  }

  lemma {:induction false} NotCut(cs: seq<Candle>, start: int, end: int)
    requires end - start <= LONGEST
    ensures Repeated(cs, start, end) == cs
    decreases |cs|
  {
    if cs != [] {
      var t := cs[0].openTime;
      if start < t && t + DAY < end {
        assert (t - start) % CHUNK == t - start;
      }
      NotCut(cs[1..], start, end);
    }
  }

  lemma RepeatsFirst(c: Candle, cs: seq<Candle>, start: int, end: int)
    ensures Repeated([c] + cs, start, end)
        == (if Boundary(start, end, c.openTime) then [c, c] else [c]) + Repeated(cs, start, end)
  {
    assert ([c] + cs)[1..] == cs;
  }

  /** Cutting off the first chunk repeats what opens at the cut, and nothing else. */
  ghost predicate CutsWell(market: seq<Candle>, start: int, end: int) {
    var mid := start + CHUNK;
    Between(market, start, mid) + Repeated(Between(market, mid, end), mid, end)
    == Repeated(Between(market, start, end), start, end)
  }

  lemma CutBefore(market: seq<Candle>, start: int, end: int)
    requires market != [] && start <= market[0].openTime < start + CHUNK && end - start > LONGEST
    requires CutsWell(market[1..], start, end)
    ensures CutsWell(market, start, end)
  {
    var mid, c, rest := start + CHUNK, market[0], market[1..];
    var before, after := Between(rest, start, mid), Between(rest, mid, end);
    BoundaryFrom(start, end, c.openTime);
    RepeatsFirst(c, Between(rest, start, end), start, end);
    assert [c] + before + Repeated(after, mid, end) == [c] + (before + Repeated(after, mid, end));
  }

  lemma CutAfter(market: seq<Candle>, start: int, end: int)
    requires market != [] && start + CHUNK <= market[0].openTime <= end && end - start > LONGEST
    requires Between(market[1..], start, start + CHUNK) == [] && CutsWell(market[1..], start, end)
    ensures CutsWell(market, start, end)
  {
    var mid, c, rest := start + CHUNK, market[0], market[1..];
    var after := Between(rest, mid, end);
    BoundaryFrom(start, end, c.openTime);
    RepeatsFirst(c, Between(rest, start, end), start, end);
    RepeatsFirst(c, after, mid, end);
    assert [] + Repeated(after, mid, end) == Repeated(after, mid, end);
    assert [c] + ([c] + Repeated(after, mid, end)) == [c, c] + Repeated(after, mid, end);
  }

  lemma {:induction false} CutOnce(market: seq<Candle>, start: int, end: int)
    requires Daily(market) && end - start > LONGEST
    ensures CutsWell(market, start, end)
    decreases |market|
  {
    if market != [] {
      CutOnce(market[1..], start, end);
      if start <= market[0].openTime < start + CHUNK {
        CutBefore(market, start, end);
      } else if start + CHUNK <= market[0].openTime <= end {
        NoneAfter(market[1..], start, start + CHUNK);
        CutAfter(market, start, end);
      }
    }
  }

  ghost predicate Consecutive(rs: seq<Request>, start: int, end: int) {
    && rs != [] && rs[0].start == start && rs[|rs| - 1].end == end
    && (forall i :: 0 <= i < |rs| ==> rs[i].end - rs[i].start <= 490 * 24 * 60 * 60 * 1000)
    && (forall i :: 0 < i < |rs| ==>
          rs[i].start == rs[i - 1].end && rs[i].start == rs[i - 1].start + 489 * 24 * 60 * 60 * 1000)
  }

  lemma OneMoreRequest(rs: seq<Request>, start: int, end: int)
    requires Consecutive(rs, start + CHUNK, end)
    ensures Consecutive([Request(start, start + CHUNK)] + rs, start, end)
  {
    var all := [Request(start, start + CHUNK)] + rs;
    assert forall i :: 0 < i < |all| ==> all[i] == rs[i - 1];
  }

  /**
   For any range with an explicit end: only an empty range fails. Otherwise the requests follow one
   another from start to end, none longer than 490 days and so none truncated by the exchange's limit,
   and the answer is what a single unlimited request would find, in order, with the candles that open
   where two requests meet given twice.
   */
  lemma {:induction false} ChunkingFindsAll(market: seq<Candle>, start: int, end: int)
    requires Daily(market)
    ensures CandlesBetween(market, start, end).Some? <==> start != end
    ensures start != end ==>
      var r := CandlesBetween(market, start, end).value;
      Consecutive(r.requests, start, end) && r.candles == Repeated(Between(market, start, end), start, end)
    decreases if end > start then end - start else 0
  {
    if start == end {
    } else if end - start > LONGEST {
      var mid := start + CHUNK;
      ChunkingFindsAll(market, start, mid);
      ChunkingFindsAll(market, mid, end);
      CollectsAll(market, Request(start, mid));
      CutOnce(market, start, end);
      assert CandlesBetween(market, start, mid).value.requests == [Request(start, mid)];
      OneMoreRequest(CandlesBetween(market, mid, end).value.requests, start, end);
    } else {
      CollectsAll(market, Request(start, end));
      NotCut(Between(market, start, end), start, end);
    }
  }

  lemma {:induction false} RepeatedLength(cs: seq<Candle>, start: int, end: int)
    ensures |Repeated(cs, start, end)| >= |cs|
    ensures Repeated(cs, start, end) == cs <==> forall i :: 0 <= i < |cs| ==> !Boundary(start, end, cs[i].openTime)
    decreases |cs|
  {
    if cs != [] {
      RepeatedLength(cs[1..], start, end);
      assert forall i :: 1 <= i < |cs| ==> cs[i] == cs[1..][i - 1];
      if !Boundary(start, end, cs[0].openTime) {
        assert Repeated(cs, start, end)[1..] == Repeated(cs[1..], start, end);
      }
    }
  }

  /** "No duplicate candles and no missing ones" holds exactly when no candle opens at a boundary. */
  lemma NoDuplicates(market: seq<Candle>, start: int, end: int)
    requires Daily(market) && start != end
    ensures CandlesBetween(market, start, end).Some?
    ensures CandlesBetween(market, start, end).value.candles == Between(market, start, end)
       <==> forall c :: c in Between(market, start, end) ==> !Boundary(start, end, c.openTime)
  {
    ChunkingFindsAll(market, start, end);
    var all := Between(market, start, end);
    RepeatedLength(all, start, end);
    assert forall i :: 0 <= i < |all| ==> all[i] in all;
  }

  /** A year and a half of candles from midnight has the one that opens on day 489 twice. */
  lemma DuplicateAtMidnight(market: seq<Candle>, c: Candle)
    requires Daily(market) && c in market && c.openTime == CHUNK
    ensures CandlesBetween(market, 0, 500 * DAY).Some?
    ensures CandlesBetween(market, 0, 500 * DAY).value.candles != Between(market, 0, 500 * DAY)
  {
    Found(market, c, 0, 500 * DAY);
    NoDuplicates(market, 0, 500 * DAY);
    assert Boundary(0, 500 * DAY, c.openTime);
  }

  /** A range holds the candles of the market that open in it. */
  lemma {:induction false} Found(market: seq<Candle>, c: Candle, start: int, end: int)
    ensures c in Between(market, start, end) <==> c in market && start <= c.openTime <= end
    decreases |market|
  {
    if market != [] {
      Found(market[1..], c, start, end);
    }
  }
}
