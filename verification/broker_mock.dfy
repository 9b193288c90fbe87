/** The paper broker (adapters/broker_mock.py): every accepted order fills at
    once at its limit price, and the running position per symbol is kept both
    in the broker and in storage. */
module BrokerMock {
  import opened Wrappers
  import opened Entities
  import opened Storage

  /** A value in an order record. */
  datatype Field = Text(s: string) | Whole(i: int) | Num(r: real)

  /** An order record is a keyed dictionary, as amendments may add any key. */
  type Order = map<string, Field>

  datatype MockBroker = MockBroker(orders: map<string, Order>, positions: map<string, Position>, store: Store)

  /** `MockBroker(storage)`: no orders, no positions, over the given storage. */
  function NewMockBroker(store: Store): (r: MockBroker)
    ensures r.orders == map[] && r.positions == map[] && r.store == store
    ensures Synced(r)
  {
    MockBroker(map[], map[], store)
  }

  predicate ValidSide(side: string) { side == "buy" || side == "sell" }

  function SignedQty(side: string, qty: int): (r: int)
    ensures side == "buy" ==> r == qty
    ensures side != "buy" ==> r == -qty
  {
    (if side == "buy" then 1 else -1) * qty
  }

  /** `_update_position`: the new quantity is the old one plus the signed fill, and the
      average price is the cost-weighted mean, or zero once the position is flat. */
  function UpdatedPosition(existing: Option<Position>, symbol: string, side: string, qty: int, price: real): (r: Position)
    ensures r.symbol == symbol
    ensures r.qty == (if existing.Some? then existing.value.qty else 0) + SignedQty(side, qty)
    ensures r.qty == 0 ==> r.avgPrice == 0.0
    ensures r.qty != 0 ==> (r.avgPrice * r.qty as real
      == (if existing.Some? then existing.value.avgPrice * existing.value.qty as real else 0.0) + price * SignedQty(side, qty) as real)
    ensures r == NewPosition(symbol, r.qty, r.avgPrice)
  {
    var change := SignedQty(side, qty);
    if existing.None? then
      NewPosition(symbol, change, if change != 0 then price else 0.0)
    else
      var newQty := existing.value.qty + change;
      var avg := if newQty != 0 then (existing.value.avgPrice * existing.value.qty as real + price * change as real) / newQty as real else 0.0;
      NewPosition(symbol, newQty, avg)
  }

  function OrderRecord(symbol: string, side: string, qty: int, price: real, status: string, ts: string): Order {
    map["symbol" := Text(symbol), "side" := Text(side), "qty" := Whole(qty), "price" := Num(price),
        "status" := Text(status), "ts" := Text(ts)]
  }

  /** `price or 0.0`. */
  function PriceOrZero(price: Option<real>): real {
    if price.Some? then price.value else 0.0
  }

  /** Broker positions mirror the stored ones. */
  predicate Synced(b: MockBroker) {
    forall s :: s in b.positions ==> Lookup(b.store.positions, s).Some? && Lookup(b.store.positions, s).value.position == b.positions[s]
  }

  /** `place_order`; `orderId` and `ts` stand for the generated uuid and the UTC clock. */
  function PlaceOrder(b: MockBroker, symbol: string, side: string, qty: int, price: Option<real>, orderId: string, ts: string): (r: (bool, MockBroker))
    ensures r.0 <==> ValidSide(side) && qty > 0
    ensures !r.0 ==> r.1 == b
    ensures r.0 ==> r.1.orders == b.orders[orderId := OrderRecord(symbol, side, qty, PriceOrZero(price), "filled", ts)]
    ensures r.0 ==> orderId in r.1.store.trades && r.1.store.trades[orderId] == Trade(symbol, side, qty, PriceOrZero(price), ts)
    ensures r.0 ==> (symbol in r.1.positions
      && r.1.positions[symbol] == UpdatedPosition(if symbol in b.positions then Some(b.positions[symbol]) else None, symbol, side, qty, PriceOrZero(price)))
    ensures r.0 ==> forall s :: s != symbol ==> (s in r.1.positions <==> s in b.positions)
    ensures r.0 ==> forall s :: s != symbol && s in b.positions ==> r.1.positions[s] == b.positions[s]
    ensures r.1.store.logs == b.store.logs
    ensures Synced(b) ==> Synced(r.1)
  {
    if !ValidSide(side) || qty <= 0 then (false, b)
    else
      var p := PriceOrZero(price);
      var existing := if symbol in b.positions then Some(b.positions[symbol]) else None;
      var pos := UpdatedPosition(existing, symbol, side, qty, p);
      var store := UpsertPosition(RecordTrade(b.store, orderId, Trade(symbol, side, qty, p, ts)), pos, ts);
      (true, MockBroker(b.orders[orderId := OrderRecord(symbol, side, qty, p, "filled", ts)], b.positions[symbol := pos], store))
  }

  /** `if not order`: unknown ids and (never produced) empty records count as missing. */
  predicate KnownOrder(b: MockBroker, orderId: string) {
    orderId in b.orders && |b.orders[orderId]| > 0
  }

  /** `amend`: merges the given fields over the order, later keys winning, and logs it. */
  function Amend(b: MockBroker, orderId: string, changes: map<string, Field>, today: Date): (r: (bool, MockBroker))
    ensures r.0 <==> KnownOrder(b, orderId)
    ensures !r.0 ==> r.1 == b
    ensures r.0 ==> (orderId in r.1.orders
      && (forall k :: k in changes ==> k in r.1.orders[orderId] && r.1.orders[orderId][k] == changes[k])
      && (forall k :: k in b.orders[orderId] && k !in changes ==> k in r.1.orders[orderId] && r.1.orders[orderId][k] == b.orders[orderId][k])
      && (forall k :: k in r.1.orders[orderId] ==> k in changes || k in b.orders[orderId]))
    ensures r.0 ==> forall id :: id != orderId ==> (id in r.1.orders <==> id in b.orders)
    ensures r.0 ==> forall id :: id != orderId && id in b.orders ==> r.1.orders[id] == b.orders[id]
    ensures r.0 ==> r.1.store == LogEvent(b.store, "INFO", "Order amended: " + orderId, today)
    ensures r.1.positions == b.positions
    ensures Synced(b) ==> Synced(r.1)
  {
    if !KnownOrder(b, orderId) then (false, b)
    else
      (true, b.(orders := b.orders[orderId := b.orders[orderId] + changes],
                store := LogEvent(b.store, "INFO", "Order amended: " + orderId, today)))
  }

  /** `cancel`: marks a known order cancelled (even a filled one) and logs it. */
  function Cancel(b: MockBroker, orderId: string, today: Date): (r: (bool, MockBroker))
    ensures r.0 <==> KnownOrder(b, orderId)
    ensures !r.0 ==> r.1 == b
    ensures r.0 ==> orderId in r.1.orders && "status" in r.1.orders[orderId] && r.1.orders[orderId]["status"] == Text("cancelled")
    ensures r.0 ==> forall k :: k != "status" ==> (k in r.1.orders[orderId] <==> k in b.orders[orderId])
    ensures r.0 ==> forall k :: k != "status" && k in b.orders[orderId] ==> r.1.orders[orderId][k] == b.orders[orderId][k]
    ensures r.0 ==> forall id :: id != orderId ==> (id in r.1.orders <==> id in b.orders)
    ensures r.0 ==> forall id :: id != orderId && id in b.orders ==> r.1.orders[id] == b.orders[id]
    ensures r.0 ==> r.1.store == LogEvent(b.store, "INFO", "Order cancelled: " + orderId, today)
    ensures r.1.positions == b.positions
    ensures Synced(b) ==> Synced(r.1)
  {
    if !KnownOrder(b, orderId) then (false, b)
    else
      (true, b.(orders := b.orders[orderId := b.orders[orderId]["status" := Text("cancelled")]],
                store := LogEvent(b.store, "INFO", "Order cancelled: " + orderId, today)))
  }

  /** `get_positions` reads storage, not the broker's own dictionary. */
  function BrokerPositions(b: MockBroker): (r: seq<Position>)
    ensures r == GetPositions(b.store)
    ensures Synced(b) ==> forall s :: s in b.positions ==> b.positions[s] in r
  {
    var r := GetPositions(b.store);
    assert Synced(b) ==> forall s :: s in b.positions ==> b.positions[s] in r by {
      if Synced(b) {
        forall s | s in b.positions ensures b.positions[s] in r {
          var row := Lookup(b.store.positions, s).value;
          var i :| 0 <= i < |b.store.positions| && b.store.positions[i] == row;
          assert r[i] == b.positions[s];
        }
      }
    }
    r
  }

  datatype OrderRequest = OrderRequest(orderId: string, symbol: string, side: string, qty: int, price: Option<real>, ts: string)

  function PlaceAll(b: MockBroker, reqs: seq<OrderRequest>): MockBroker
    decreases |reqs|
  {
    if |reqs| == 0 then b
    else
      var q := reqs[0];
      PlaceAll(PlaceOrder(b, q.symbol, q.side, q.qty, q.price, q.orderId, q.ts).1, reqs[1..])
  }

  /** The net signed quantity of the accepted requests for `symbol`: the reference for positions. */
  function NetQty(reqs: seq<OrderRequest>, symbol: string): int
    decreases |reqs|
  {
    if |reqs| == 0 then 0
    else
      var q := reqs[0];
      (if q.symbol == symbol && ValidSide(q.side) && q.qty > 0 then SignedQty(q.side, q.qty) else 0) + NetQty(reqs[1..], symbol)
  }

  function HeldQty(b: MockBroker, symbol: string): int {
    if symbol in b.positions then b.positions[symbol].qty else 0
  }

  /** After any sequence of orders, each symbol's position is the net of its accepted fills. */
  lemma {:induction false} PlaceAllNetsQuantities(b: MockBroker, reqs: seq<OrderRequest>, symbol: string)
    ensures HeldQty(PlaceAll(b, reqs), symbol) == HeldQty(b, symbol) + NetQty(reqs, symbol)
    ensures Synced(b) ==> Synced(PlaceAll(b, reqs))
    decreases |reqs|
  {
    if |reqs| > 0 {
      var q := reqs[0];
      var b1 := PlaceOrder(b, q.symbol, q.side, q.qty, q.price, q.orderId, q.ts).1;
      PlaceAllNetsQuantities(b1, reqs[1..], symbol);
    }
  }

  /** Buying 10 at 100 and then selling 5 at 110 leaves 5 held at an average of 90,
      and the first order is still on record. */
  lemma BuyThenSellExample(store: Store)
    requires store.positions == []
    ensures var b1 := PlaceOrder(NewMockBroker(store), "AAA", "buy", 10, Some(100.0), "o1", "t1");
      var b2 := PlaceOrder(b1.1, "AAA", "sell", 5, Some(110.0), "o2", "t2");
      b1.0 && b2.0
      && |BrokerPositions(b2.1)| == 1
      && BrokerPositions(b2.1)[0].symbol == "AAA"
      && BrokerPositions(b2.1)[0].qty == 5
      && BrokerPositions(b2.1)[0].avgPrice == 90.0
      && KnownOrder(b2.1, "o1")
  {
    var bought := NewPosition("AAA", 10, 100.0);
    var sold := NewPosition("AAA", 5, 90.0);
    assert UpdatedPosition(None, "AAA", "buy", 10, 100.0) == bought;
    SellHalfAverage();
    var b1 := PlaceOrder(NewMockBroker(store), "AAA", "buy", 10, Some(100.0), "o1", "t1");
    assert b1.1.positions == map["AAA" := bought];
    assert b1.1.store.positions == [PositionRow(bought, "t1")];
    var b2 := PlaceOrder(b1.1, "AAA", "sell", 5, Some(110.0), "o2", "t2");
    assert b2.1.store.positions == [PositionRow(sold, "t2")];
    assert "symbol" in b2.1.orders["o1"];
  }

  lemma SellHalfAverage()
    ensures UpdatedPosition(Some(NewPosition("AAA", 10, 100.0)), "AAA", "sell", 5, 110.0) == NewPosition("AAA", 5, 90.0)
  {
    assert (100.0 * 10.0 + 110.0 * -5.0) / 5.0 == 90.0;
  }

  /** A known order stays known after an amendment, so it can then be cancelled. */
  lemma AmendThenCancel(b: MockBroker, orderId: string, changes: map<string, Field>, today: Date, later: Date)
    requires KnownOrder(b, orderId)
    ensures Amend(b, orderId, changes, today).0
    ensures Cancel(Amend(b, orderId, changes, today).1, orderId, later).0
  {
    var b1 := Amend(b, orderId, changes, today).1;
    var k :| k in b.orders[orderId];
    assert k in b1.orders[orderId];
  }
}
