/** The live broker adapter for the Korea Investment & Securities OpenAPI
    (adapters/broker_kis.py): the checks an order passes before any request,
    the request it builds, how the reply is classified, and how balance rows
    become positions. Replies are inputs; `None` stands for a failed request. */
module BrokerKis {
  import opened Wrappers
  import opened Text
  import opened Entities
  import opened Storage

  /** The adapter's state: storage, the paper/real switch, whether keys were loaded,
      and the two halves of the account number. */
  datatype KisBroker = KisBroker(store: Store, paper: bool, enabled: bool, cano: string, acntPrdtCd: string)

  /** `_split_account`: hyphens and surrounding whitespace removed, then the 8-digit
      account number and the 2-digit product code. */
  function SplitAccount(acc: string): (r: (string, string))
    ensures var clean := CleanAccount(acc);
      && (|clean| >= 10 ==> r == (clean[..8], clean[8..10]))
      && (0 < |clean| < 10 ==> r == (clean, "01"))
      && (clean == "" ==> r == ("", "01"))
    ensures '-' !in r.0 && '-' !in r.1
  {
    var clean := CleanAccount(acc);
    if |clean| >= 10 then
      AbsentInSlice(clean, '-', 0, 8);
      AbsentInSlice(clean, '-', 8, 10);
      (clean[..8], clean[8..10])
    else if |clean| > 0 then (clean, "01")
    else ("", "01")
  }

  /** The account number with hyphens removed and surrounding whitespace stripped. */
  function CleanAccount(acc: string): (r: string)
    ensures '-' !in r
    ensures r == Strip(RemoveChar(acc, '-'))
  {
    StripKeepsAbsent(RemoveChar(acc, '-'), '-');
    Strip(RemoveChar(acc, '-'))
  }

  predicate PlainChars(s: string) {
    forall i :: 0 <= i < |s| ==> s[i] != '-' && !IsSpace(s[i])
  }

  /** An account written `CANO-PRDT` splits back into its two parts. */
  lemma SplitAccountRoundTrip(cano: string, prd: string)
    requires |cano| == 8 && |prd| == 2 && PlainChars(cano) && PlainChars(prd)
    ensures SplitAccount(cano + "-" + prd) == (cano, prd)
  {
    var joined := cano + prd;
    HyphenRemoved(cano, prd);
    assert forall i :: 0 <= i < |joined| ==> !IsSpace(joined[i]) by {
      forall i | 0 <= i < |joined| ensures !IsSpace(joined[i]) {
        if i < 8 { assert joined[i] == cano[i]; } else { assert joined[i] == prd[i - 8]; }
      }
    }
    StripNoSpace(joined);
    assert joined[..8] == cano && joined[8..10] == prd;
  }

  /** Removing the hyphens from `CANO-PRDT` joins the two parts. */
  lemma HyphenRemoved(cano: string, prd: string)
    requires PlainChars(cano) && PlainChars(prd)
    ensures RemoveChar(cano + "-" + prd, '-') == cano + prd
  {
    assert '-' !in cano by { forall i | 0 <= i < |cano| ensures cano[i] != '-' { } }
    assert '-' !in prd by { forall i | 0 <= i < |prd| ensures prd[i] != '-' { } }
    var dash: string := "-";
    assert RemoveChar(dash, '-') == "" by {
      assert dash[0] == '-' && dash[1..] == "";
    }
    RemoveCharAppend(cano, dash, '-');
    assert RemoveChar(cano + dash, '-') == cano + "";
    assert cano + "" == cano;
    RemoveCharAppend(cano + dash, prd, '-');
  }

  /** `_ORDER_TR_IDS`: the transaction id for an order, by side and by paper or real trading. */
  function OrderTrId(side: string, paper: bool): (r: Option<string>)
    ensures r.Some? <==> (side == "buy" || side == "sell")
  {
    if side == "buy" then Some(if paper then "VTTC0802U" else "TTTC0802U")
    else if side == "sell" then Some(if paper then "VTTC0801U" else "TTTC0801U")
    else None
  }

  /** The four order transaction ids are distinct: the id determines side and mode. */
  lemma OrderTrIdInjective(s1: string, p1: bool, s2: string, p2: bool)
    requires OrderTrId(s1, p1).Some? && OrderTrId(s1, p1) == OrderTrId(s2, p2)
    ensures s1 == s2 && p1 == p2
  {
  }

  /** `_BALANCE_TR_ID`. */
  function BalanceTrId(paper: bool): string {
    if paper then "VTTC8434R" else "TTTC8434R"
  }

  datatype OrderPayload = OrderPayload(cano: string, acntPrdtCd: string, pdno: string, ordDvsn: string, ordQty: string, ordUnpr: string)

  /** The fields of an order reply the adapter reads; `otherKeys` says whether it
      carried anything else (an empty reply is falsy). */
  datatype OrderReply = OrderReply(rtCd: Option<string>, msg1: Option<string>, odno: Option<string>, orderNo: Option<string>, otherKeys: bool)

  predicate Truthy(s: Option<string>) { s.Some? && s.value != "" }

  predicate EmptyReply(r: OrderReply) {
    r.rtCd.None? && r.msg1.None? && r.odno.None? && r.orderNo.None? && !r.otherKeys
  }

  /** Why an order was stopped before any request. */
  datatype Gate = BadSide | BadQty | NotEnabled | NotConfirmed | NoAccount

  /** `place_order`'s checks, in order. */
  function OrderGate(b: KisBroker, side: string, qty: int, confirmed: bool): (r: Option<Gate>)
    ensures r.None? <==> (side == "buy" || side == "sell") && qty > 0 && b.enabled && confirmed && b.cano != ""
    ensures r == Some(BadSide) <==> !(side == "buy" || side == "sell")
    ensures r == Some(BadQty) <==> (side == "buy" || side == "sell") && qty <= 0
  {
    if !(side == "buy" || side == "sell") then Some(BadSide)
    else if qty <= 0 then Some(BadQty)
    else if !b.enabled then Some(NotEnabled)
    else if !confirmed then Some(NotConfirmed)
    else if b.cano == "" then Some(NoAccount)
    else None
  }

  /** `ORD_UNPR`: "0" without a price, else the price to two decimals. */
  function PriceText(price: Option<real>, fixed2: real -> string): string {
    if price.None? then "0" else fixed2(price.value)
  }

  function OrderPayloadFor(b: KisBroker, symbol: string, qty: nat, price: Option<real>, fixed2: real -> string): (r: OrderPayload)
    ensures r.pdno == BeforeFirst(symbol, '.') && '.' !in r.pdno
    ensures r.ordQty == NatToString(qty) && r.ordDvsn == "01"
    ensures price.None? ==> r.ordUnpr == "0"
    ensures price.Some? ==> r.ordUnpr == fixed2(price.value)
    ensures r.cano == b.cano && r.acntPrdtCd == b.acntPrdtCd
  {
    OrderPayload(b.cano, b.acntPrdtCd, BeforeFirst(symbol, '.'), "01", NatToString(qty), PriceText(price, fixed2))
  }

  /** The order number shown on acceptance: `ODNO`, else `order_no`, else `unknown`. */
  function OrderNumber(r: OrderReply): string {
    if Truthy(r.odno) then r.odno.value else if Truthy(r.orderNo) then r.orderNo.value else "unknown"
  }

  /** The outcome of `place_order`: success, the request sent if any, and the new state. */
  datatype OrderOutcome = OrderOutcome(ok: bool, request: Option<(string, OrderPayload)>, broker: KisBroker)

  /** `place_order`; `reply` is what the order endpoint would answer (None on a transport
      failure) and is consulted only when every check passed. */
  function PlaceOrder(b: KisBroker, symbol: string, side: string, qty: int, price: Option<real>, confirmed: bool,
                      reply: Option<OrderReply>, fixed2: real -> string, today: Date): (r: OrderOutcome)
    ensures OrderGate(b, side, qty, confirmed).Some? ==> r == OrderOutcome(false, None, b)
    ensures OrderGate(b, side, qty, confirmed).None? ==> (r.request.Some?
      && r.request.value.0 == OrderTrId(side, b.paper).value
      && r.request.value.1 == OrderPayloadFor(b, symbol, qty, price, fixed2))
    ensures r.ok <==> OrderGate(b, side, qty, confirmed).None? && reply.Some? && !EmptyReply(reply.value) && reply.value.rtCd == Some("0")
    ensures r.broker.store.trades == b.store.trades && r.broker.store.positions == b.store.positions
    ensures r.request.Some? ==> |r.broker.store.logs| == |b.store.logs| + 1
    ensures r.request.Some? && (reply.None? || EmptyReply(reply.value)) ==> (r.broker.store
      == LogEvent(b.store, "WARNING", "KIS 주문 실패: " + symbol + " " + side + " " + IntToString(qty) + " " + PriceText(price, fixed2), today))
    ensures r.request.Some? && reply.Some? && !EmptyReply(reply.value) && !r.ok ==> (r.broker.store
      == LogEvent(b.store, "WARNING", "KIS 주문 거절: " + (if Truthy(reply.value.msg1) then reply.value.msg1.value else "주문 거절"), today))
    ensures r.ok ==> (r.broker.store
      == LogEvent(b.store, "INFO", "KIS 주문 접수: " + symbol + " " + side + " " + IntToString(qty) + " #" + OrderNumber(reply.value), today))
  {
    if OrderGate(b, side, qty, confirmed).Some? then OrderOutcome(false, None, b)
    else
      var request := Some((OrderTrId(side, b.paper).value, OrderPayloadFor(b, symbol, qty, price, fixed2)));
      if reply.None? || EmptyReply(reply.value) then
        OrderOutcome(false, request, b.(store := LogEvent(b.store, "WARNING",
          "KIS 주문 실패: " + symbol + " " + side + " " + IntToString(qty) + " " + PriceText(price, fixed2), today)))
      else if reply.value.rtCd != Some("0") then
        var msg := if Truthy(reply.value.msg1) then reply.value.msg1.value else "주문 거절";
        OrderOutcome(false, request, b.(store := LogEvent(b.store, "WARNING", "KIS 주문 거절: " + msg, today)))
      else
        OrderOutcome(true, request, b.(store := LogEvent(b.store, "INFO",
          "KIS 주문 접수: " + symbol + " " + side + " " + IntToString(qty) + " #" + OrderNumber(reply.value), today)))
  }

  /** `amend`: only logged; always refused. */
  function Amend(b: KisBroker, orderId: string, today: Date): (r: (bool, KisBroker))
    ensures !r.0
    ensures r.1.store == LogEvent(b.store, "INFO", "KIS amend requested: " + orderId, today)
  {
    (false, b.(store := LogEvent(b.store, "INFO", "KIS amend requested: " + orderId, today)))
  }

  /** `cancel`: only logged; always refused. */
  function Cancel(b: KisBroker, orderId: string, today: Date): (r: (bool, KisBroker))
    ensures !r.0
    ensures r.1.store == LogEvent(b.store, "INFO", "KIS cancel requested: " + orderId, today)
  {
    (false, b.(store := LogEvent(b.store, "INFO", "KIS cancel requested: " + orderId, today)))
  }

  // ------------------------------------------------------------ balance rows

  datatype BalanceRow = BalanceRow(hldgQty: NumField, pchsAvgPric: NumField, prpr: NumField,
                                   pdno: Option<string>, evluPflsRt: NumField, hghstPrc: NumField)

  /** `float(x or 0)`; None when `float` raises. */
  function NumberOrZero(f: NumField): (r: Option<real>)
    ensures r.None? <==> f.Bad?
    ensures f.Value? ==> r == Some(f.v)
  {
    match f
    case Absent => Some(0.0)
    case Falsy => Some(0.0)
    case Value(v) => Some(v)
    case Bad => None
  }

  /** `int(float(item.get("hldg_qty", 0)))`; a falsy non-number makes `float` raise. */
  function HeldQuantity(f: NumField): Option<int> {
    match f
    case Absent => Some(0)
    case Falsy => None
    case Value(v) => Some(Trunc(v))
    case Bad => None
  }

  /** One balance row as a position, or None when the row is skipped
      (a parse error, no holding, or no product code). */
  function ParseBalanceRow(row: BalanceRow): (r: Option<Position>)
    ensures r.Some? ==> r.value.qty > 0 && HeldQuantity(row.hldgQty) == Some(r.value.qty)
    ensures r.Some? ==> row.pdno.Some? && Strip(row.pdno.value) != "" && r.value.symbol == Strip(row.pdno.value) + ".KS"
    ensures r.Some? ==> NumberOrZero(row.evluPflsRt) == Some(r.value.pnlPct * 100.0)
    ensures r.Some? ==> r.value.takeProfitPrice == 1.2 * r.value.avgPrice
    ensures r.Some? ==> r.value.trailStop >= r.value.lastPrice && r.value.hardStop == 0.0
    ensures r.Some? ==> (NumberOrZero(row.pchsAvgPric) == Some(r.value.avgPrice) && NumberOrZero(row.prpr) == Some(r.value.lastPrice))
    ensures r.Some? ==> (row.hghstPrc.Value? ==> r.value.trailStop >= row.hghstPrc.v)
    ensures r.Some? ==>
      var highest := if row.hghstPrc.Value? then row.hghstPrc.v else r.value.lastPrice;
      r.value.trailStop >= highest && (r.value.trailStop == r.value.lastPrice || r.value.trailStop == highest)
    ensures r.None? <==> (HeldQuantity(row.hldgQty).None? || HeldQuantity(row.hldgQty).value <= 0
      || row.pchsAvgPric.Bad? || row.prpr.Bad? || row.evluPflsRt.Bad?
      || row.pdno.None? || Strip(row.pdno.value) == "")
  {
    var qty := HeldQuantity(row.hldgQty);
    if qty.None? || qty.value <= 0 then None
    else
      var avg := NumberOrZero(row.pchsAvgPric);
      var last := NumberOrZero(row.prpr);
      if avg.None? || last.None? || row.pdno.None? || Strip(row.pdno.value) == "" then None
      else
        var rate := NumberOrZero(row.evluPflsRt);
        if rate.None? then None
        else
          var highest := if row.hghstPrc.Value? then row.hghstPrc.v else last.value;
          var trail := if last.value >= highest then last.value else highest;
          var takeProfit := if avg.value != 0.0 then avg.value * 1.0 + avg.value * 0.2 else 0.0;
          Some(Position(Strip(row.pdno.value) + ".KS", qty.value, avg.value, last.value, rate.value / 100.0, trail, 0.0, takeProfit))
  }

  /** A parsed row is a holding of a KOSPI code. */
  lemma ParsedRowIsHolding(row: BalanceRow, p: Position)
    requires ParseBalanceRow(row) == Some(p)
    ensures p.qty > 0 && EndsWith(p.symbol, ".KS")
  {
    EndsWithConcat(Strip(row.pdno.value), ".KS");
  }

  /** The positions the rows parse to, in row order; skipped rows contribute nothing. */
  function Parsed(rows: seq<BalanceRow>): (r: seq<Position>)
    ensures |r| <= |rows|
    ensures forall p :: p in r ==> exists i :: 0 <= i < |rows| && ParseBalanceRow(rows[i]) == Some(p)
    ensures forall i :: 0 <= i < |rows| && ParseBalanceRow(rows[i]).Some? ==> ParseBalanceRow(rows[i]).value in r
    decreases |rows|
  {
    if |rows| == 0 then []
    else
      var rest := Parsed(rows[1..]);
      SomesStep(rows, ParseBalanceRow, rest);
      match ParseBalanceRow(rows[0])
      case Some(p) => [p] + rest
      case None => rest
  }

  /** One step of collecting the present values of `f` over `xs`: the head's value, if
      any, before those of the tail keeps both directions of "comes from some element". */
  lemma SomesStep<A, B>(xs: seq<A>, f: A -> Option<B>, rest: seq<B>)
    requires |xs| > 0 && |rest| <= |xs| - 1
    requires forall p :: p in rest ==> exists i :: 0 <= i < |xs[1..]| && f(xs[1..][i]) == Some(p)
    requires forall i :: 0 <= i < |xs[1..]| && f(xs[1..][i]).Some? ==> f(xs[1..][i]).value in rest
    ensures var r := if f(xs[0]).Some? then [f(xs[0]).value] + rest else rest;
      && |r| <= |xs|
      && (forall p :: p in r ==> exists i :: 0 <= i < |xs| && f(xs[i]) == Some(p))
      && (forall i :: 0 <= i < |xs| && f(xs[i]).Some? ==> f(xs[i]).value in r)
  {
    assert forall i :: 1 <= i < |xs| ==> xs[i] == xs[1..][i - 1];
  }

  /** Parsing commutes with concatenation, so the positions come out in row order. */
  lemma {:induction false} ParsedAppend(a: seq<BalanceRow>, b: seq<BalanceRow>)
    ensures Parsed(a + b) == Parsed(a) + Parsed(b)
    decreases |a|
  {
    if |a| == 0 {
      assert a + b == b;
    } else {
      assert (a + b)[0] == a[0];
      assert (a + b)[1..] == a[1..] + b;
      ParsedAppend(a[1..], b);
    }
  }

  /** The loop of `_fetch_remote_positions`: the parsed rows, in order, each also
      upserted into storage with stamp `now`. */
  function ParseRows(st: Store, rows: seq<BalanceRow>, now: string): (r: (seq<Position>, Store))
    ensures r.0 == Parsed(rows)
    ensures r.1 == UpsertPositions(st, Parsed(rows), now)
    ensures |r.0| == 0 ==> r.1 == st
    ensures r.1.logs == st.logs && r.1.trades == st.trades
    decreases |rows|
  {
    if |rows| == 0 then ([], st)
    else
      var head := ParseBalanceRow(rows[0]);
      var st1 := if head.Some? then UpsertPosition(st, head.value, now) else st;
      var rest := ParseRows(st1, rows[1..], now);
      if head.Some? then
        assert ([head.value] + rest.0)[1..] == rest.0;
        ([head.value] + rest.0, rest.1)
      else rest
  }

  /** The balance reply: None on a transport failure; `output1` is None when it is not a list. */
  datatype BalanceReply = BalanceReply(output1: Option<seq<BalanceRow>>)

  /** `_fetch_remote_positions`. */
  function FetchRemotePositions(b: KisBroker, reply: Option<BalanceReply>, now: string): (r: (seq<Position>, KisBroker))
    ensures (!b.enabled || b.cano == "" || reply.None? || reply.value.output1.None?) ==> r == ([], b)
    ensures b.enabled && b.cano != "" && reply.Some? && reply.value.output1.Some? ==>
      var parsed := Parsed(reply.value.output1.value);
      r == (parsed, b.(store := UpsertPositions(b.store, parsed, now)))
    ensures forall p :: p in r.0 ==> p.qty > 0 && EndsWith(p.symbol, ".KS")
    ensures r.1.store.logs == b.store.logs
    ensures |r.0| == 0 ==> r.1 == b
  {
    if !b.enabled || b.cano == "" || reply.None? || reply.value.output1.None? then ([], b)
    else
      var parsed := ParseRows(b.store, reply.value.output1.value, now);
      assert forall p :: p in parsed.0 ==> p.qty > 0 && EndsWith(p.symbol, ".KS") by {
        forall p | p in parsed.0 ensures p.qty > 0 && EndsWith(p.symbol, ".KS") {
          var rows := reply.value.output1.value;
          var i :| 0 <= i < |rows| && ParseBalanceRow(rows[i]) == Some(p);
          ParsedRowIsHolding(rows[i], p);
        }
      }
      (parsed.0, b.(store := parsed.1))
  }

  /** `get_positions`: the remote holdings when there are any, else the stored ones. */
  function GetPositions(b: KisBroker, reply: Option<BalanceReply>, now: string): (r: (seq<Position>, KisBroker))
    ensures var remote := FetchRemotePositions(b, reply, now).0;
      |remote| > 0 ==> r.0 == remote
    ensures |FetchRemotePositions(b, reply, now).0| == 0 ==> r == (Storage.GetPositions(b.store), b)
    ensures r.1 == FetchRemotePositions(b, reply, now).1
    ensures |FetchRemotePositions(b, reply, now).0| > 0 ==> r.1.store == UpsertPositions(b.store, r.0, now)
  {
    var (remote, b1) := FetchRemotePositions(b, reply, now);
    if |remote| > 0 then (remote, b1) else (Storage.GetPositions(b1.store), b1)
  }
}
