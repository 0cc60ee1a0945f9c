/**
 The spot position ledger: filled orders are folded into positions, each order once. The store is the
 persistence interface: a record per position holding its size, the orders added to it and its entry.
 */
module SpotPositions {
  import opened Options
  import opened Rounding

  datatype Side = Buy | Sell

  /** An exchange's own id, or the one the backtester makes from symbol, side and signal time. */
  datatype OrderId = Exchange(name: string) | Backtest(symbol: string, side: Side, time: int)

  /** `rest` is everything else in the order's JSON, the way its numbers are written included. */
  datatype Order = Order(
    id: OrderId, exchange: string, symbol: string, baseAsset: string, quoteAsset: string,
    side: Side, time: int, base: real, quote: real, price: Option<real>, rest: string)

  /** The edge is missing for orders nobody recorded a context for. */
  datatype PositionId = PositionId(exchange: string, edge: Option<string>, baseAsset: string)

  datatype Entry = Entry(time: int, size: real, quoteInvested: real, quoteAsset: string, price: real)

  datatype Position = Position(size: real, orders: seq<Order>, entry: Option<Entry>)

  const NO_POSITION: Position := Position(0.0, [], None)

  type Store = map<PositionId, Position>

  function Lookup(s: Store, id: PositionId): Position {
    if id in s then s[id] else NO_POSITION
  }

  function Ids(orders: seq<Order>): set<OrderId> {
    set i | 0 <= i < |orders| :: orders[i].id
  }

  /** The store with a position's record set; a record that says nothing new is not written. */
  function Put(s: Store, id: PositionId, p: Position): Store {
    if p == Lookup(s, id) then s else s[id := p]
  }

  /** The store keeps a set of whole orders: one that differs anywhere from those recorded is new. */
  predicate Held(p: Position, o: Order) {
    o in p.orders
  }

  function WithNew(known: seq<Order>, orders: seq<Order>): seq<Order>
    decreases |orders|
  {
    if orders == [] then known
    else WithNew(if orders[0] in known then known else known + [orders[0]], orders[1..])
  }

  ghost predicate NoRepeats(orders: seq<Order>) {
    forall i, j :: 0 <= i < j < |orders| ==> orders[i] != orders[j]
  }

  /** The record stays a set: what was there, in place, and each other order once. */
  lemma {:induction false} RecordedOnce(known: seq<Order>, orders: seq<Order>)
    requires NoRepeats(known)
    ensures NoRepeats(WithNew(known, orders)) && known <= WithNew(known, orders)
    ensures forall x :: x in WithNew(known, orders) <==> x in known || x in orders
    decreases |orders|
  {
    if orders != [] {
      var more := if orders[0] in known then known else known + [orders[0]];
      RecordedOnce(more, orders[1..]);
      assert orders == [orders[0]] + orders[1..];
      assert known <= more;
    }
  }

  function SignedBase(o: Order): real {
    if o.side == Buy then o.base else -o.base
  }

  function EntryOf(o: Order): Entry
    requires o.price.Some?
  {
    Entry(o.time, o.base, o.quote, o.quoteAsset, o.price.value)
  }

  // ---------- One order ----------

  datatype Applied = Applied(position: Position, thrown: bool)

  /**
   An order not seen before is recorded, then opens a position of size zero or adjusts any other.
   Opening needs the execution price: without one it fails, with the order already recorded.
   */
  function AddOrder(p: Position, o: Order): Applied {
    if Held(p, o) then Applied(p, false)
    else
      var recorded := p.(orders := p.orders + [o]);
      if p.size != 0.0 then Applied(recorded.(size := p.size + SignedBase(o)), false)
      else if o.price.None? then Applied(recorded, true)
      else
        Applied(recorded.(size := o.base, entry := Some(EntryOf(o))), false)
  }

  /** Whether a remaining volume is too small to trade at a price on a market. */
  type SizeCheck = (string, real, real) -> bool

  function VolumeOnly(symbol: string, volume: real, price: real): bool {
    volume == 0.0
  }

  datatype ClosedEvent = ClosedEvent(
    id: PositionId, entry: Option<Entry>, orders: seq<Order>, exitTime: int, exitPrice: real,
    exitSize: real, quoteReturned: real)

  /** What one filled order does to the position it is for. */
  datatype Outcome = Outcome(
    position: Option<Position>, opening: Option<Position>, closing: Option<ClosedEvent>, thrown: bool)

  function BuyFilled(p: Position, o: Order): Outcome {
    var a := AddOrder(p, o);
    if a.thrown || o.price.None? then Outcome(Some(a.position), None, None, true)
    else Outcome(Some(a.position), Some(a.position), None, false)
  }

  function SellFilled(id: PositionId, p: Position, o: Order, tooSmall: SizeCheck): Outcome {
    if p.size == 0.0 then Outcome(Some(p), None, None, false)
    else
      var q := AddOrder(p, o).position;
      if o.price.Some? && tooSmall(o.symbol, q.size, o.price.value) then
        Outcome(None, None, Some(ClosedEvent(id, q.entry, q.orders, o.time, o.price.value, o.base, o.quote)), false)
      else Outcome(Some(q), None, None, false)
  }

  function Filled(id: PositionId, p: Position, o: Order, tooSmall: SizeCheck): Outcome {
    if o.side == Buy then BuyFilled(p, o) else SellFilled(id, p, o, tooSmall)
  }

  function Stored(s: Store, id: PositionId, out: Outcome): Store {
    if out.position.Some? then Put(s, id, out.position.value) else s - {id}
  }

  function After(out: Outcome): Position {
    if out.position.Some? then out.position.value else NO_POSITION
  }

  // ---------- Redelivery ----------

  /**
   Redelivering an order a live position holds never changes its size or its orders; it can only
   close the position, when the close check takes the unchanged size for too small at that price.
   */
  lemma Redelivery(id: PositionId, p: Position, o: Order, tooSmall: SizeCheck)
    requires p.size != 0.0 && Held(p, o)
    ensures Filled(id, p, o, tooSmall).position == Some(p) <==>
            !(o.side == Sell && o.price.Some? && tooSmall(o.symbol, p.size, o.price.value))
  {
  }

  /** With the volume-only check that is never the case: the whole store stays as it is, and nothing is closed. */
  lemma RedeliveryByVolume(s: Store, id: PositionId, o: Order)
    requires Lookup(s, id).size != 0.0 && Held(Lookup(s, id), o)
    ensures var out := Filled(id, Lookup(s, id), o, VolumeOnly);
            Stored(s, id, out) == s && out.closing.None?
  {
    Redelivery(id, Lookup(s, id), o, VolumeOnly);
  }

  /**
   An opening buy without a price fails with the order on record and no position. A later buy of
   something opens it exactly when it has a price and is not one of the orders on record.
   */
  lemma UnpricedOpeningWaits(id: PositionId, p: Position, o: Order, again: Order, tooSmall: SizeCheck)
    requires p.size == 0.0 && o.side == Buy && o.price.None? && !Held(p, o) && again.side == Buy && again.base != 0.0
    ensures var q := After(Filled(id, p, o, tooSmall));
            && q == p.(orders := p.orders + [o])
            && (After(Filled(id, q, again, tooSmall)).size != 0.0 <==> again.price.Some? && again !in p.orders)
  {
  }

  /** A new, priced sell of everything held closes the position. */
  lemma FullSell(id: PositionId, p: Position, o: Order)
    requires o.side == Sell && o.price.Some? && p.size != 0.0 && o.base == p.size && !Held(p, o)
    ensures Filled(id, p, o, VolumeOnly) ==
              var event := ClosedEvent(id, p.entry, p.orders + [o], o.time, o.price.value, o.base, o.quote);
              Outcome(None, None, Some(event), false)
  {
    assert AddOrder(p, o).position.size == p.size - o.base;
  }

  /** The size with one more order: unchanged by one on record, else more by a buy and less by a sell. */
  function SizeWith(p: Position, o: Order): real {
    if o in p.orders then p.size else if o.side == Buy then p.size + o.base else p.size - o.base
  }

  /**
   A buy opens an empty position as it says, or adds to one, once; it is announced, with the position as it then
   is, exactly when it has a price, and otherwise fails.
   */
  lemma BuyExactly(id: PositionId, p: Position, o: Order, tooSmall: SizeCheck)
    requires o.side == Buy
    ensures var out := Filled(id, p, o, tooSmall);
            && (out.thrown <==> o.price.None?) && out.closing.None? && out.position.Some?
            && out.opening == (if o.price.Some? then out.position else None)
            && (o in p.orders ==> out.position == Some(p))
            && (o !in p.orders ==>
                  var orders := p.orders + [o];
                  out.position == Some(
                    if p.size != 0.0 then Position(p.size + o.base, orders, p.entry)
                    else if o.price.None? then Position(0.0, orders, p.entry)
                    else Position(o.base, orders, Some(Entry(o.time, o.base, o.quote, o.quoteAsset, o.price.value)))))
  {
  }

  /**
   A sell for a position there is counts once, and closes it exactly when it has a price at which what is left is
   too small; the report then has the entry, all orders and this sell. Any other sell does nothing.
   */
  lemma SellExactly(id: PositionId, p: Position, o: Order, tooSmall: SizeCheck)
    requires o.side == Sell
    ensures var out := Filled(id, p, o, tooSmall);
            var orders := if o in p.orders then p.orders else p.orders + [o];
            && !out.thrown && out.opening.None?
            && (out.closing.Some? <==>
                  p.size != 0.0 && o.price.Some? && tooSmall(o.symbol, SizeWith(p, o), o.price.value))
            && (out.closing.Some? ==>
                  && out.position.None?
                  && out.closing.value == ClosedEvent(id, p.entry, orders, o.time, o.price.value, o.base, o.quote))
            && (out.closing.None? ==>
                  out.position == Some(if p.size == 0.0 then p else Position(SizeWith(p, o), orders, p.entry)))
  {
  }

  // ---------- Histories ----------

  /** The position after a history of orders filled for it, oldest first. */
  function Fold(id: PositionId, h: seq<Order>, tooSmall: SizeCheck): Position
    decreases |h|
  {
    if h == [] then NO_POSITION
    else After(Filled(id, Fold(id, h[..|h| - 1], tooSmall), h[|h| - 1], tooSmall))
  }

  /** Buys minus sells over the distinct orders of `h` that are not in `seen`. */
  function NetOfNew(seen: seq<Order>, h: seq<Order>): real
    decreases |h|
  {
    if h == [] then 0.0
    else
      var front, last := h[..|h| - 1], h[|h| - 1];
      NetOfNew(seen, front) + if last in seen + front then 0.0 else if last.side == Buy then last.base else -last.base
  }

  ghost predicate SameOrders(a: seq<Order>, b: seq<Order>) {
    forall x :: x in a <==> x in b
  }

  /** Delivery k of a history opened the position it is for. */
  ghost predicate OpensAt(id: PositionId, h: seq<Order>, k: nat, tooSmall: SizeCheck) {
    && k < |h| && h[k].side == Buy && h[k].price.Some?
    && Fold(id, h[..k], tooSmall).size == 0.0 && !Held(Fold(id, h[..k], tooSmall), h[k])
  }

  ghost predicate StaysOpen(id: PositionId, h: seq<Order>, k: nat, tooSmall: SizeCheck) {
    forall j :: k < j < |h| ==> Fold(id, h[..j], tooSmall).size != 0.0
  }

  ghost predicate Explains(id: PositionId, h: seq<Order>, k: nat, tooSmall: SizeCheck) {
    && OpensAt(id, h, k, tooSmall)
    && StaysOpen(id, h, k, tooSmall)
    && var p, seen := Fold(id, h, tooSmall), Fold(id, h[..k], tooSmall).orders;
       && p.entry == Some(Entry(h[k].time, h[k].base, h[k].quote, h[k].quoteAsset, h[k].price.value))
       && p.size == NetOfNew(seen, h[k..])
       && SameOrders(p.orders, seen + h[k..])
  }

  lemma OpenedByBuy(id: PositionId, p: Position, o: Order, tooSmall: SizeCheck)
    requires p.size == 0.0 && After(Filled(id, p, o, tooSmall)).size != 0.0
    ensures o.side == Buy && o.price.Some? && !Held(p, o)
    ensures After(Filled(id, p, o, tooSmall)) == Position(o.base, p.orders + [o], Some(EntryOf(o)))
  {
  }

  lemma OpeningExplains(id: PositionId, front: seq<Order>, o: Order, tooSmall: SizeCheck)
    requires Fold(id, front, tooSmall).size == 0.0 && Fold(id, front + [o], tooSmall).size != 0.0
    ensures Explains(id, front + [o], |front|, tooSmall)
  {
    var h, k, p := front + [o], |front|, Fold(id, front, tooSmall);
    assert h[..k] == front && h[k..] == [] + [o];
    OpenedByBuy(id, p, o, tooSmall);
    NetOfOne(p.orders, o);
  }

  lemma NetOfOne(seen: seq<Order>, o: Order)
    requires o !in seen
    ensures NetOfNew(seen, [] + [o]) == SignedBase(o)
  {
    assert ([] + [o])[..0] == [];
    assert seen + [] == seen;
  }

  /**
   Whatever the close check, the size of a live position is the order that last opened it, plus the later
   buys, minus the later sells, each distinct order counted once however often it was delivered; and it
   holds exactly the orders recorded before it opened and those delivered since.
   */
  lemma {:induction false} SizeIsNetOfDistinctOrders(id: PositionId, h: seq<Order>, tooSmall: SizeCheck)
    requires Fold(id, h, tooSmall).size != 0.0
    ensures exists k: nat :: Explains(id, h, k, tooSmall)
    decreases |h|
  {
    var front, o := h[..|h| - 1], h[|h| - 1];
    var p := Fold(id, front, tooSmall);
    if p.size == 0.0 {
      assert front + [o] == h;
      OpeningExplains(id, front, o, tooSmall);
      assert Explains(id, h, |front|, tooSmall);
    } else {
      SizeIsNetOfDistinctOrders(id, front, tooSmall);
      var k: nat :| Explains(id, front, k, tooSmall);
      ExplainsLonger(id, h, k, tooSmall);
    }
  }

  lemma StaysOpenLonger(id: PositionId, h: seq<Order>, k: nat, tooSmall: SizeCheck)
    requires h != [] && Fold(id, h[..|h| - 1], tooSmall).size != 0.0 && StaysOpen(id, h[..|h| - 1], k, tooSmall)
    ensures StaysOpen(id, h, k, tooSmall)
  {
    var front := h[..|h| - 1];
    forall j | k < j < |h| ensures Fold(id, h[..j], tooSmall).size != 0.0 {
      assert h[..j] == front[..j];
      assert j == |front| ==> front[..j] == front;
    }
  }

  lemma NetStep(seen: seq<Order>, h: seq<Order>, p: Position, o: Order)
    requires p.size != 0.0 && p.size == NetOfNew(seen, h) && SameOrders(p.orders, seen + h)
    ensures var q := AddOrder(p, o).position;
            q.size == NetOfNew(seen, h + [o]) && SameOrders(q.orders, seen + (h + [o]))
  {
    assert (h + [o])[..|h|] == h;
  }

  lemma StaysFolded(id: PositionId, p: Position, o: Order, tooSmall: SizeCheck)
    requires p.size != 0.0 && After(Filled(id, p, o, tooSmall)).size != 0.0
    ensures After(Filled(id, p, o, tooSmall)) == AddOrder(p, o).position
  {
  }

  lemma ExplainsLonger(id: PositionId, h: seq<Order>, k: nat, tooSmall: SizeCheck)
    requires h != [] && Fold(id, h, tooSmall).size != 0.0 && Fold(id, h[..|h| - 1], tooSmall).size != 0.0
    requires Explains(id, h[..|h| - 1], k, tooSmall)
    ensures Explains(id, h, k, tooSmall)
  {
    var front, o := h[..|h| - 1], h[|h| - 1];
    assert front[..k] == h[..k] && h[k..] == front[k..] + [o];
    StaysOpenLonger(id, h, k, tooSmall);
    StaysFolded(id, Fold(id, front, tooSmall), o, tooSmall);
    NetStep(Fold(id, h[..k], tooSmall).orders, front[k..], Fold(id, front, tooSmall), o);
  }

  // ---------- The whole store ----------

  /** A filled order, and the edge on record for it as it is delivered. */
  datatype Delivery = Delivery(edge: Option<string>, order: Order)

  function IdFor(d: Delivery): PositionId {
    PositionId(d.order.exchange, d.edge, d.order.baseAsset)
  }

  /** The store after deliveries for any positions, oldest first. */
  function AfterAll(ds: seq<Delivery>, tooSmall: SizeCheck): Store {
    if ds == [] then map[]
    else
      var s, d := AfterAll(ds[..|ds| - 1], tooSmall), ds[|ds| - 1];
      Stored(s, IdFor(d), Filled(IdFor(d), Lookup(s, IdFor(d)), d.order, tooSmall))
  }

  /** The orders among them that are for one position. */
  function RoutedTo(ds: seq<Delivery>, id: PositionId): seq<Order> {
    if ds == [] then []
    else RoutedTo(ds[..|ds| - 1], id) + if IdFor(ds[|ds| - 1]) == id then [ds[|ds| - 1].order] else []
  }

  lemma StoredAt(s: Store, id: PositionId, out: Outcome, other: PositionId)
    ensures Lookup(Stored(s, id, out), other) == if other == id then After(out) else Lookup(s, other)
  {
  }

  lemma FoldOneMore(id: PositionId, h: seq<Order>, o: Order, tooSmall: SizeCheck)
    ensures Fold(id, h + [o], tooSmall) == After(Filled(id, Fold(id, h, tooSmall), o, tooSmall))
  {
    assert (h + [o])[..|h|] == h;
  }

  lemma {:induction false} StoreIsFold(ds: seq<Delivery>, id: PositionId, tooSmall: SizeCheck)
    ensures Lookup(AfterAll(ds, tooSmall), id) == Fold(id, RoutedTo(ds, id), tooSmall)
    decreases |ds|
  {
    if ds != [] {
      var front, d := ds[..|ds| - 1], ds[|ds| - 1];
      var s := AfterAll(front, tooSmall);
      StoreIsFold(front, id, tooSmall);
      StoredAt(s, IdFor(d), Filled(IdFor(d), Lookup(s, IdFor(d)), d.order, tooSmall), id);
      FoldOneMore(id, RoutedTo(front, id), d.order, tooSmall);
      assert IdFor(d) != id ==> RoutedTo(ds, id) == RoutedTo(front, id);
    }
  }

  /**
   However the deliveries for many positions are mixed, the store keeps for each what its own orders fold to,
   and the size of every live one is the net of its distinct orders since it opened.
   */
  lemma StoreKeepsPositionsApart(ds: seq<Delivery>, id: PositionId, tooSmall: SizeCheck)
    ensures Lookup(AfterAll(ds, tooSmall), id) == Fold(id, RoutedTo(ds, id), tooSmall)
    ensures Lookup(AfterAll(ds, tooSmall), id).size != 0.0
        ==> exists k: nat :: Explains(id, RoutedTo(ds, id), k, tooSmall)
  {
    StoreIsFold(ds, id, tooSmall);
    if Lookup(AfterAll(ds, tooSmall), id).size != 0.0 { SizeIsNetOfDistinctOrders(id, RoutedTo(ds, id), tooSmall); }
  }

  // ---------- Orders and their ids ----------

  /** The same count by id: an order whose id was delivered before counts for nothing. */
  function NetOfNewIds(seen: seq<Order>, h: seq<Order>): real
    decreases |h|
  {
    if h == [] then 0.0
    else
      var front, last := h[..|h| - 1], h[|h| - 1];
      NetOfNewIds(seen, front)
      + if last.id in Ids(seen + front) then 0.0 else if last.side == Buy then last.base else -last.base
  }

  /** Delivery i is a new order under an id delivered before. */
  predicate Variant(seen: seq<Order>, h: seq<Order>, i: nat)
    requires i < |h|
  {
    h[i] !in seen + h[..i] && h[i].id in Ids(seen + h[..i])
  }

  function NetOfVariants(seen: seq<Order>, h: seq<Order>): real
    decreases |h|
  {
    if h == [] then 0.0
    else
      NetOfVariants(seen, h[..|h| - 1])
      + if Variant(seen, h, |h| - 1) then SignedBase(h[|h| - 1]) else 0.0
  }

  lemma InIds(orders: seq<Order>, o: Order)
    requires o in orders
    ensures o.id in Ids(orders)
  {
    var i :| 0 <= i < |orders| && orders[i] == o;
    assert orders[i].id == o.id;
  }

  lemma {:induction false} VariantsApart(seen: seq<Order>, h: seq<Order>)
    ensures NetOfNew(seen, h) == NetOfNewIds(seen, h) + NetOfVariants(seen, h)
    decreases |h|
  {
    if h != [] {
      var front, last := h[..|h| - 1], h[|h| - 1];
      VariantsApart(seen, front);
      if last in seen + front { InIds(seen + front, last); }
    }
  }

  ghost predicate VariantsOfNothing(seen: seq<Order>, h: seq<Order>) {
    forall i :: 0 <= i < |h| && Variant(seen, h, i) ==> h[i].base == 0.0
  }

  ghost predicate NeverCount(seen: seq<Order>, h: seq<Order>) {
    forall j :: 0 <= j <= |h| ==> NetOfVariants(seen, h[..j]) == 0.0
  }

  lemma LastVariant(seen: seq<Order>, h: seq<Order>)
    requires h != []
    ensures var front, n := h[..|h| - 1], |h| - 1;
            VariantsOfNothing(seen, h) <==> VariantsOfNothing(seen, front) && (Variant(seen, h, n) ==> h[n].base == 0.0)
  {
    var front := h[..|h| - 1];
    forall i | 0 <= i < |front| ensures Variant(seen, front, i) == Variant(seen, h, i) && front[i] == h[i] {
      assert front[..i] == h[..i];
    }
  }

  lemma LastCount(seen: seq<Order>, h: seq<Order>)
    requires h != []
    ensures NeverCount(seen, h) <==> NeverCount(seen, h[..|h| - 1]) && NetOfVariants(seen, h) == 0.0
  {
    var front := h[..|h| - 1];
    assert forall j :: 0 <= j <= |front| ==> front[..j] == h[..j];
    assert h[..|h|] == h;
  }

  lemma {:induction false} VariantsCount(seen: seq<Order>, h: seq<Order>)
    ensures NeverCount(seen, h) <==> VariantsOfNothing(seen, h)
    decreases |h|
  {
    if h != [] {
      var front := h[..|h| - 1];
      VariantsCount(seen, front);
      LastVariant(seen, h);
      LastCount(seen, h);
      assert front[..|front|] == front;
    }
  }

  lemma {:induction false} LiveSince(id: PositionId, h: seq<Order>, k: nat, tooSmall: SizeCheck)
    requires OpensAt(id, h, k, tooSmall) && StaysOpen(id, h, k, tooSmall) && Fold(id, h, tooSmall).size != 0.0
    ensures Explains(id, h, k, tooSmall)
    decreases |h|
  {
    var front := h[..|h| - 1];
    assert h == front + [h[|h| - 1]];
    if k == |front| {
      OpeningExplains(id, front, h[k], tooSmall);
    } else {
      assert front[..k] == h[..k] && h[..|front|] == front;
      forall j | k < j < |front| ensures Fold(id, front[..j], tooSmall).size != 0.0 {
        assert front[..j] == h[..j];
      }
      LiveSince(id, front, k, tooSmall);
      ExplainsLonger(id, h, k, tooSmall);
    }
  }

  /** The size after each delivery is the net of distinct orders so far. */
  lemma SizeThroughout(id: PositionId, h: seq<Order>, k: nat, j: nat, tooSmall: SizeCheck)
    requires Explains(id, h, k, tooSmall) && Fold(id, h, tooSmall).size != 0.0 && k < j <= |h|
    ensures Fold(id, h[..j], tooSmall).size == NetOfNew(Fold(id, h[..k], tooSmall).orders, h[k..][..j - k])
  {
    var t := h[..j];
    assert t[..k] == h[..k] && t[k..] == h[k..][..j - k];
    assert j == |h| ==> t == h;
    forall i | k < i < |t| ensures Fold(id, t[..i], tooSmall).size != 0.0 {
      assert t[..i] == h[..i];
    }
    LiveSince(id, t, k, tooSmall);
  }

  /**
   Counting by id gives the size after every delivery since the opening exactly when no order of some
   amount came that differed from an earlier one with its id.
   */
  lemma IdsSufficeExactly(id: PositionId, h: seq<Order>, k: nat, tooSmall: SizeCheck)
    requires Explains(id, h, k, tooSmall) && Fold(id, h, tooSmall).size != 0.0
    ensures var seen, t := Fold(id, h[..k], tooSmall).orders, h[k..];
            (forall j :: k < j <= |h| ==> Fold(id, h[..j], tooSmall).size == NetOfNewIds(seen, t[..j - k]))
            <==> VariantsOfNothing(seen, t)
  {
    var seen, t := Fold(id, h[..k], tooSmall).orders, h[k..];
    forall j | k < j <= |h|
      ensures Fold(id, h[..j], tooSmall).size == NetOfNewIds(seen, t[..j - k]) + NetOfVariants(seen, t[..j - k])
    {
      SizeThroughout(id, h, k, j, tooSmall);
      VariantsApart(seen, t[..j - k]);
    }
    VariantsCount(seen, t);
    assert t[..0] == [];
    if forall j :: k < j <= |h| ==> Fold(id, h[..j], tooSmall).size == NetOfNewIds(seen, t[..j - k]) {
      forall i | 0 <= i <= |t| ensures NetOfVariants(seen, t[..i]) == 0.0 {
        if i > 0 {
          assert t[..i] == t[..(k + i) - k];
          assert Fold(id, h[..k + i], tooSmall).size == NetOfNewIds(seen, t[..(k + i) - k]);
        }
      }
    }
  }

  // ---------- What a closing reports ----------

  /** The change a closed event states between the quote invested and the quote returned. */
  function AbsQuoteChange(c: ClosedEvent): Option<real> {
    if c.entry.Some? then Some(c.quoteReturned - c.entry.value.quoteInvested) else None
  }

  function SignedQuote(o: Order): real {
    if o.side == Sell then o.quote else -o.quote
  }

  /** Quote received minus quote paid, over the distinct orders not in `seen`, as `NetOfNew` counts base. */
  function NetQuoteOfNew(seen: seq<Order>, h: seq<Order>): real
    decreases |h|
  {
    if h == [] then 0.0
    else
      var front, last := h[..|h| - 1], h[|h| - 1];
      NetQuoteOfNew(seen, front) + if last in seen + front then 0.0 else SignedQuote(last)
  }

  lemma NetQuoteStep(seen: seq<Order>, h: seq<Order>, o: Order)
    ensures NetQuoteOfNew(seen, h + [o]) == NetQuoteOfNew(seen, h) + if o in seen + h then 0.0 else SignedQuote(o)
  {
    assert (h + [o])[..|h|] == h;
  }

  lemma {:induction false} OpeningFirst(seen: seq<Order>, b: Order, t: seq<Order>)
    requires b !in seen
    ensures NetQuoteOfNew(seen, [b] + t) == SignedQuote(b) + NetQuoteOfNew(seen + [b], t)
    decreases |t|
  {
    if t == [] {
      assert [b] + t == [b] && [b][..0] == [];
    } else {
      var front, last := t[..|t| - 1], t[|t| - 1];
      OpeningFirst(seen, b, front);
      assert ([b] + t)[..|t|] == [b] + front;
      assert (seen + [b]) + front == seen + ([b] + front);
    }
  }

  /** What the distinct orders between the opening, delivery k, and the end of the history netted. */
  function Between(id: PositionId, h: seq<Order>, k: nat, tooSmall: SizeCheck): real
    requires k < |h|
  {
    NetQuoteOfNew(Fold(id, h[..k], tooSmall).orders + [h[k]], h[k + 1..])
  }

  lemma ClosingChange(id: PositionId, p: Position, o: Order, b: Order, tooSmall: SizeCheck)
    requires SellFilled(id, p, o, tooSmall).closing.Some? && b.price.Some? && p.entry == Some(EntryOf(b))
    ensures AbsQuoteChange(SellFilled(id, p, o, tooSmall).closing.value) == Some(o.quote - b.quote)
  {
  }

  /** A history from its opening to a last sell: the two ends, and what is between them. */
  lemma NetQuoteEnds(seen: seq<Order>, h: seq<Order>, o: Order)
    requires h != [] && h[0] !in seen && h[0].side == Buy && o.side == Sell
    ensures NetQuoteOfNew(seen, h + [o]) ==
            NetQuoteOfNew(seen + [h[0]], h[1..]) - h[0].quote + if o in seen + h then 0.0 else o.quote
  {
    NetQuoteStep(seen, h, o);
    OpeningFirst(seen, h[0], h[1..]);
    assert h == [h[0]] + h[1..];
  }

  /**
   The event was written for single entries and exits: it reports what the last sell returned minus what
   delivery k, which opened the position, cost. That is what the position made exactly when the orders
   between the two net to nothing, or to the sell itself where it had been delivered before.
   */
  lemma ClosingReportsItsEnds(id: PositionId, h: seq<Order>, o: Order, k: nat, tooSmall: SizeCheck)
    requires o.side == Sell && SellFilled(id, Fold(id, h, tooSmall), o, tooSmall).closing.Some?
    requires Explains(id, h, k, tooSmall)
    ensures var change := AbsQuoteChange(SellFilled(id, Fold(id, h, tooSmall), o, tooSmall).closing.value);
            var seen := Fold(id, h[..k], tooSmall).orders;
            && change == Some(o.quote - h[k].quote)
            && (change == Some(NetQuoteOfNew(seen, h[k..] + [o])) <==>
                  Between(id, h, k, tooSmall) == if o in seen + h[k..] then o.quote else 0.0)
  {
    ClosingChange(id, Fold(id, h, tooSmall), o, h[k], tooSmall);
    NetQuoteEnds(Fold(id, h[..k], tooSmall).orders, h[k..], o);
    assert h[k..][1..] == h[k + 1..];
  }

  lemma TwoBuys(id: PositionId, a: Order, b: Order)
    requires a.side == Buy && b.side == Buy && a.price.Some? && b.price.Some? && a != b && a.base > 0.0 && b.base > 0.0
    ensures Fold(id, [a, b], VolumeOnly) == Position(a.base + b.base, [a, b], Some(EntryOf(a)))
    ensures NetQuoteOfNew([], [a, b]) == -a.quote - b.quote
  {
    assert [a, b][..1] == [a] && [a][..0] == [];
    assert Fold(id, [a], VolumeOnly) == Position(a.base, [a], Some(EntryOf(a)));
    NetQuoteStep([], [], a);
    assert [] + [a] == [a];
    NetQuoteStep([], [a], b);
    assert [a] + [b] == [a, b];
  }

  /** A buy of 1 delivered twice, the second time with something else about it changed: 2 are held, 1 by id. */
  lemma ChangedRedelivery(id: PositionId, a: Order, b: Order)
    requires a.side == Buy && a.price.Some? && a.base == 1.0 && b == a.(rest := b.rest) && b.rest != a.rest
    ensures Fold(id, [a, b], VolumeOnly).size == 2.0 && NetOfNewIds([], [a, b]) == 1.0
  {
    TwoBuys(id, a, b);
    assert [a, b][..1] == [a] && [a][..0] == [] && [] + [a] == [a];
    assert NetOfNewIds([], [a]) == 1.0;
    InIds([a], a);
  }

  /** Two buys of 100 each and one sell for 210: the event states a change of 110, where 10 was made. */
  lemma ClosingMisreports(id: PositionId, a: Order, b: Order, o: Order)
    requires a.side == Buy && b.side == Buy && o.side == Sell && a != b
    requires a.price.Some? && b.price.Some? && o.price.Some?
    requires a.base == 1.0 && b.base == 1.0 && o.base == 2.0 && a.quote == 100.0 && b.quote == 100.0 && o.quote == 210.0
    ensures var out := SellFilled(id, Fold(id, [a, b], VolumeOnly), o, VolumeOnly);
            out.closing.Some? && AbsQuoteChange(out.closing.value) == Some(110.0)
    ensures NetQuoteOfNew([], [a, b] + [o]) == 10.0
  {
    TwoBuys(id, a, b);
    NetQuoteStep([], [a, b], o);
  }

  // ---------- The store and the objects over it ----------

  class SpotPositionsPersistence {
    var positions: Store

    constructor ()
      ensures positions == map[]
    {
      positions := map[];
    }

    function PositionSize(id: PositionId): real
      reads this
    {
      Lookup(positions, id).size
    }

    function InPosition(id: PositionId): bool
      reads this
    {
      PositionSize(id) > 0.0
    }

    /** Returns how many of the orders were not recorded yet. */
    method AddOrders(id: PositionId, orders: seq<Order>) returns (added: nat)
      modifies this
      ensures var p := Lookup(old(positions), id);
              && positions == Put(old(positions), id, p.(orders := WithNew(p.orders, orders)))
              && |WithNew(p.orders, orders)| == |p.orders| + added
    {
      var p := Lookup(positions, id);
      var recorded := p.orders;
      added := 0;
      var i := 0;
      while i < |orders|
        invariant 0 <= i <= |orders| && WithNew(recorded, orders[i..]) == WithNew(p.orders, orders)
        invariant |recorded| == |p.orders| + added && (added == 0 ==> recorded == p.orders)
      {
        assert orders[i..][1..] == orders[i + 1..];
        if orders[i] !in recorded {
          recorded := recorded + [orders[i]];
          added := added + 1;
        }
        i := i + 1;
      }
      if added > 0 {
        positions := positions[id := p.(orders := recorded)];
      }
    }

    method InitialisePosition(id: PositionId, entry: Entry)
      modifies this
      ensures positions == old(positions)[id := Lookup(old(positions), id).(size := entry.size, entry := Some(entry))]
    {
      positions := positions[id := Lookup(positions, id).(size := entry.size, entry := Some(entry))];
    }

    method AdjustPositionSizeBy(id: PositionId, baseChange: real)
      modifies this
      ensures var p := Lookup(old(positions), id); positions == old(positions)[id := p.(size := p.size + baseChange)]
    {
      var p := Lookup(positions, id);
      positions := positions[id := p.(size := p.size + baseChange)];
    }

    method DeletePosition(id: PositionId)
      modifies this
      ensures positions == old(positions) - {id}
    {
      positions := positions - {id};
    }
  }

  class SpotPosition {
    const store: SpotPositionsPersistence
    const id: PositionId

    constructor (store: SpotPositionsPersistence, id: PositionId)
      ensures this.store == store && this.id == id
    {
      this.store, this.id := store, id;
    }

    /** Fails, with the store untouched, for an order on another asset. */
    method AddOrderToPosition(order: Order) returns (ok: bool)
      modifies store
      ensures order.baseAsset != id.baseAsset ==> !ok && store.positions == old(store.positions)
      ensures order.baseAsset == id.baseAsset ==>
                var p := Lookup(old(store.positions), id);
                var a := AddOrder(p, order);
                ok == !a.thrown && store.positions == Put(old(store.positions), id, a.position)
    {
      if order.baseAsset != id.baseAsset {
        return false;
      }
      var added := store.AddOrders(id, [order]);
      if added == 0 {
        return true;
      }
      if store.PositionSize(id) == 0.0 {
        if order.price.None? {
          return false;
        }
        store.InitialisePosition(id, EntryOf(order));
      } else {
        store.AdjustPositionSizeBy(id, if order.side == Buy then order.base else -order.base);
      }
      return true;
    }
  }

  /** The edge each order was placed for, by exchange and order id. */
  class OrderContextPersistence {
    var edges: map<(string, OrderId), string>

    constructor ()
      ensures edges == map[]
    {
      edges := map[];
    }

    method SetOrderContextForOrder(exchange: string, id: OrderId, edge: string)
      modifies this
      ensures edges == old(edges)[(exchange, id) := edge]
    {
      edges := edges[(exchange, id) := edge];
    }

    function EdgeOf(exchange: string, id: OrderId): Option<string>
      reads this
    {
      if (exchange, id) in edges then Some(edges[(exchange, id)]) else None
    }
  }

  class SpotPositionTracker {
    const store: SpotPositionsPersistence
    const contexts: OrderContextPersistence
    const tooSmall: SizeCheck
    var openings: seq<Position>
    var closings: seq<ClosedEvent>

    constructor (store: SpotPositionsPersistence, contexts: OrderContextPersistence, tooSmall: SizeCheck)
      ensures this.store == store && this.contexts == contexts && this.tooSmall == tooSmall
      ensures openings == [] && closings == []
    {
      this.store, this.contexts, this.tooSmall := store, contexts, tooSmall;
      openings, closings := [], [];
    }

    function IdOf(o: Order): PositionId
      reads contexts
    {
      IdFor(Delivery(contexts.EdgeOf(o.exchange, o.id), o))
    }

    /** The filled order has done to its position, and to the event logs, what `out` says. */
    twostate predicate Did(id: PositionId, out: Outcome)
      reads this, store
    {
      && store.positions == Stored(old(store.positions), id, out)
      && openings == old(openings) + (if out.opening.Some? then [out.opening.value] else [])
      && closings == old(closings) + (if out.closing.Some? then [out.closing.value] else [])
    }

    /** False where the source throws. The opening is announced for every buy, redelivered or not. */
    method BuyOrderFilled(order: Order) returns (ok: bool)
      requires order.side == Buy
      modifies this, store
      ensures var out := BuyFilled(Lookup(old(store.positions), IdOf(order)), order);
              Did(IdOf(order), out) && ok == !out.thrown
    {
      var id := IdOf(order);
      var position := new SpotPosition(store, id);
      ok := position.AddOrderToPosition(order);
      if !ok || order.price.None? {
        return false;
      }
      openings := openings + [Lookup(store.positions, id)];
    }

    method SellOrderFilled(order: Order)
      requires order.side == Sell
      modifies this, store
      ensures Did(IdOf(order), SellFilled(IdOf(order), Lookup(old(store.positions), IdOf(order)), order, tooSmall))
    {
      var id := IdOf(order);
      var position := new SpotPosition(store, id);
      if store.PositionSize(id) == 0.0 {
        return; // a sell on an unknown position is not recorded
      }
      var _ := position.AddOrderToPosition(order);
      if order.price.None? {
        return;
      }
      if tooSmall(order.symbol, store.PositionSize(id), order.price.value) {
        var q := Lookup(store.positions, id);
        var event := ClosedEvent(id, q.entry, q.orders, order.time, order.price.value, order.base, order.quote);
        closings := closings + [event];
        store.DeletePosition(id);
      }
    }
  }
}
