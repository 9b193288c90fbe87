/** The portfolio statistics panel (v5_trader/plugins/statistics_dashboard/dashboard.py):
    three metrics computed from the holdings and the order history. */
module Dashboard {
  datatype Holding = Holding(quantity: real, averagePrice: real)
  datatype OrderRow = OrderRow(quantity: real, price: real, side: string)
  datatype Metric = Metric(name: string, value: real)

  /** Σ quantity · average price, added left to right. */
  function TotalValue(holdings: seq<Holding>): real
    decreases |holdings|
  {
    if |holdings| == 0 then 0.0
    else TotalValue(holdings[..|holdings| - 1]) + holdings[|holdings| - 1].quantity * holdings[|holdings| - 1].averagePrice
  }

  /** Σ quantity · price over the orders whose side is exactly "SELL". */
  function Realized(orders: seq<OrderRow>): real
    decreases |orders|
  {
    if |orders| == 0 then 0.0
    else
      var o := orders[|orders| - 1];
      Realized(orders[..|orders| - 1]) + (if o.side == "SELL" then o.quantity * o.price else 0.0)
  }

  /** `metrics`: exactly three metrics in a fixed order. */
  function Metrics(holdings: seq<Holding>, orders: seq<OrderRow>): (r: seq<Metric>)
    ensures |r| == 3
    ensures r[0] == Metric("Total Holdings Value", TotalValue(holdings))
    ensures r[1] == Metric("Realized Sales", Realized(orders))
    ensures r[2] == Metric("Positions", |holdings| as real)
  {
    [Metric("Total Holdings Value", TotalValue(holdings)),
     Metric("Realized Sales", Realized(orders)),
     Metric("Positions", |holdings| as real)]
  }

  /** The holdings value is additive over any split of the holdings. */
  lemma {:induction false} TotalValueAppend(a: seq<Holding>, b: seq<Holding>)
    ensures TotalValue(a + b) == TotalValue(a) + TotalValue(b)
    decreases |b|
  {
    if |b| > 0 {
      var b' := b[..|b| - 1];
      assert (a + b)[..|a + b| - 1] == a + b';
      assert (a + b)[|a + b| - 1] == b[|b| - 1];
      TotalValueAppend(a, b');
    } else {
      assert a + b == a;
    }
  }

  /** Realized sales are additive too, and only exact "SELL" orders contribute. */
  lemma {:induction false} RealizedAppend(a: seq<OrderRow>, b: seq<OrderRow>)
    ensures Realized(a + b) == Realized(a) + Realized(b)
    decreases |b|
  {
    if |b| > 0 {
      var b' := b[..|b| - 1];
      assert (a + b)[..|a + b| - 1] == a + b';
      assert (a + b)[|a + b| - 1] == b[|b| - 1];
      RealizedAppend(a, b');
    } else {
      assert a + b == a;
    }
  }

  /** An order whose side is not exactly "SELL" (a buy, or "sell" in lower case) leaves
      the realized figure unchanged. */
  lemma OtherSidesIgnored(orders: seq<OrderRow>, o: OrderRow)
    requires o.side != "SELL"
    ensures Realized(orders + [o]) == Realized(orders)
  {
    RealizedAppend(orders, [o]);
    assert Realized([o]) == Realized([]) + 0.0;
  }

  /** With non-negative quantities and prices both money metrics are non-negative. */
  lemma {:induction false} MetricsNonNegative(holdings: seq<Holding>, orders: seq<OrderRow>)
    requires forall i :: 0 <= i < |holdings| ==> holdings[i].quantity >= 0.0 && holdings[i].averagePrice >= 0.0
    requires forall i :: 0 <= i < |orders| ==> orders[i].quantity >= 0.0 && orders[i].price >= 0.0
    ensures Metrics(holdings, orders)[0].value >= 0.0 && Metrics(holdings, orders)[1].value >= 0.0
    decreases |holdings| + |orders|
  {
    if |holdings| > 0 {
      MetricsNonNegative(holdings[..|holdings| - 1], orders);
    } else if |orders| > 0 {
      MetricsNonNegative(holdings, orders[..|orders| - 1]);
    }
  }
}
