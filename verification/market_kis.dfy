/** Daily candles from the KIS OpenAPI (adapters/market_kis.py): the request
    derived from a symbol, the parsing of each reply item with its fallbacks,
    and the truncation and ordering of the result. The reply is an input;
    the date parser and the clock are parameters. */
module MarketKis {
  import opened Wrappers
  import opened Text
  import opened Entities
  import opened StableSort

  const DailyTrIdReal := "FHKST03010100"
  const DailyTrIdPaper := "VTTC8908R"

  datatype MarketKis = MarketKis(enabled: bool, paper: bool)

  /** One item of the daily-price reply: each value under its KIS name and its plain alias. */
  datatype DailyItem = DailyItem(
    code: Option<string>, symbol: Option<string>,
    stckClpr: NumField, close: NumField, stckHgpr: NumField, high: NumField,
    stckLwpr: NumField, low: NumField, stckOprc: NumField, open: NumField,
    acmlVol: NumField, volume: NumField,
    bsopDate: Option<string>, date: Option<string>)

  predicate Given(f: NumField) { f.Value? || f.Bad? }

  /** `float(a or b or default)`; None when `float` raises. */
  function FirstNumber(a: NumField, b: NumField, default: real): (r: Option<real>)
    ensures !Given(a) && !Given(b) ==> r == Some(default)
    ensures a.Value? ==> r == Some(a.v)
    ensures !Given(a) && b.Value? ==> r == Some(b.v)
    ensures r.None? <==> a.Bad? || (!Given(a) && b.Bad?)
  {
    var f := if Given(a) then a else b;
    if f.Value? then Some(f.v) else if f.Bad? then None else Some(default)
  }

  /** `float(a or b or default)` raises: the winning field is not a number. */
  predicate Malformed(a: NumField, b: NumField) {
    a.Bad? || (!Given(a) && b.Bad?)
  }

  /** `a or b` on two optional strings, the empty string being falsy. */
  function FirstText(a: Option<string>, b: Option<string>): (r: Option<string>)
    ensures r.Some? ==> r.value != "" && (r == a || r == b)
    ensures r.None? <==> (a.None? || a.value == "") && (b.None? || b.value == "")
  {
    if a.Some? && a.value != "" then a else if b.Some? && b.value != "" then b else None
  }

  /** The board suffix `.KS` unless the code already names a market. */
  function MarketSymbol(code: string): (r: string)
    ensures '.' in code ==> r == code
    ensures '.' !in code ==> r == code + ".KS"
    ensures '.' in r
  {
    if '.' in code then code else code + ".KS"
  }

  /** `_parse_candle`; `parseDate` is `strptime(s, "%Y%m%d")` as a timestamp, None when it raises. */
  function ParseCandle(item: DailyItem, now: int, parseDate: string -> Option<int>): (r: Option<Candle>)
    ensures FirstText(item.code, item.symbol).None? ==> r.None?
    ensures r.Some? ==> r.value.symbol == MarketSymbol(FirstText(item.code, item.symbol).value)
    ensures r.Some? ==> FirstNumber(item.stckClpr, item.close, 0.0) == Some(r.value.close)
    ensures r.Some? && !Given(item.stckHgpr) && !Given(item.high) ==> r.value.high == r.value.close
    ensures r.Some? && !Given(item.stckLwpr) && !Given(item.low) ==> r.value.low == r.value.close
    ensures r.Some? && !Given(item.stckOprc) && !Given(item.open) ==> r.value.open == r.value.close
    ensures r.Some? && !Given(item.acmlVol) && !Given(item.volume) ==> r.value.volume == 0.0
    ensures r.Some? && FirstText(item.bsopDate, item.date).None? ==> r.value.timestamp == now
    ensures r.None? <==>
      || FirstText(item.code, item.symbol).None?
      || Malformed(item.stckClpr, item.close) || Malformed(item.stckHgpr, item.high)
      || Malformed(item.stckLwpr, item.low) || Malformed(item.stckOprc, item.open)
      || Malformed(item.acmlVol, item.volume)
      || (FirstText(item.bsopDate, item.date).Some? && parseDate(FirstText(item.bsopDate, item.date).value).None?)
    ensures r.Some? ==> FirstNumber(item.stckHgpr, item.high, r.value.close) == Some(r.value.high)
    ensures r.Some? ==> FirstNumber(item.stckLwpr, item.low, r.value.close) == Some(r.value.low)
    ensures r.Some? ==> FirstNumber(item.stckOprc, item.open, r.value.close) == Some(r.value.open)
    ensures r.Some? ==> FirstNumber(item.acmlVol, item.volume, 0.0) == Some(r.value.volume)
    ensures r.Some? && FirstText(item.bsopDate, item.date).Some? ==>
      parseDate(FirstText(item.bsopDate, item.date).value) == Some(r.value.timestamp)
  {
    var code := FirstText(item.code, item.symbol);
    if code.None? then None
    else
      var close := FirstNumber(item.stckClpr, item.close, 0.0);
      if close.None? then None
      else
        var high := FirstNumber(item.stckHgpr, item.high, close.value);
        var low := FirstNumber(item.stckLwpr, item.low, close.value);
        var open := FirstNumber(item.stckOprc, item.open, close.value);
        var volume := FirstNumber(item.acmlVol, item.volume, 0.0);
        var dateText := FirstText(item.bsopDate, item.date);
        var ts := if dateText.None? then Some(now) else parseDate(dateText.value);
        if high.None? || low.None? || open.None? || volume.None? || ts.None? then None
        else Some(Candle(MarketSymbol(code.value), ts.value, open.value, high.value, low.value, close.value, volume.value))
  }

  /** The items that parse, in reply order. */
  function ParseAll(items: seq<DailyItem>, now: int, parseDate: string -> Option<int>): (r: seq<Candle>)
    ensures |r| <= |items|
    ensures forall c :: c in r ==> exists i :: 0 <= i < |items| && ParseCandle(items[i], now, parseDate) == Some(c)
    decreases |items|
  {
    if |items| == 0 then []
    else
      var head := ParseCandle(items[0], now, parseDate);
      var rest := ParseAll(items[1..], now, parseDate);
      assert forall c :: c in rest ==> exists i :: 0 <= i < |items| && ParseCandle(items[i], now, parseDate) == Some(c) by {
        forall c | c in rest ensures exists i :: 0 <= i < |items| && ParseCandle(items[i], now, parseDate) == Some(c) {
          var i :| 0 <= i < |items[1..]| && ParseCandle(items[1..][i], now, parseDate) == Some(c);
          assert items[1..][i] == items[i + 1];
        }
      }
      (if head.Some? then [head.value] else []) + rest
  }

  function TimestampKey(c: Candle): real { c.timestamp as real }

  /** The request `get_candles` sends: the transaction id and the stock code. */
  datatype DailyRequest = DailyRequest(trId: string, code: string)

  /** The daily-price reply; `output` is None when it is not a list. */
  datatype DailyReply = DailyReply(output: Option<seq<DailyItem>>)

  /** `get_candles`: the request sent, if any, and the candles returned. `reply` is None
      when the request or its decoding failed. */
  function GetCandles(m: MarketKis, symbol: string, timeframe: string, limit: int, reply: Option<DailyReply>,
                      now: int, parseDate: string -> Option<int>): (r: (Option<DailyRequest>, seq<Candle>))
    ensures !m.enabled || timeframe != "D" ==> r == (None, [])
    ensures m.enabled && timeframe == "D" ==> r.0 == Some(DailyRequest(if m.paper then DailyTrIdPaper else DailyTrIdReal, BeforeFirst(symbol, '.')))
    ensures reply.None? || reply.value.output.None? ==> r.1 == []
    ensures m.enabled && timeframe == "D" && reply.Some? && reply.value.output.Some? ==>
      multiset(r.1) == multiset(ParseAll(PyTake(reply.value.output.value, limit), now, parseDate))
    ensures SortedBy(r.1, TimestampKey)
    ensures m.enabled && timeframe == "D" && reply.Some? && reply.value.output.Some? ==>
      forall t :: WithKey(r.1, TimestampKey, t) == WithKey(ParseAll(PyTake(reply.value.output.value, limit), now, parseDate), TimestampKey, t)
    ensures limit >= 0 ==> |r.1| <= limit
  {
    if !m.enabled || timeframe != "D" then (None, [])
    else
      var request := Some(DailyRequest(if m.paper then DailyTrIdPaper else DailyTrIdReal, BeforeFirst(symbol, '.')));
      if reply.None? || reply.value.output.None? then (request, [])
      else
        var parsed := ParseAll(PyTake(reply.value.output.value, limit), now, parseDate);
        SortBySorted(parsed, TimestampKey);
        forall t ensures WithKey(SortBy(parsed, TimestampKey), TimestampKey, t) == WithKey(parsed, TimestampKey, t) {
          SortByStable(parsed, TimestampKey, t);
        }
        (request, SortBy(parsed, TimestampKey))
  }

  /** Every returned candle is the parse of one of the first `limit` reply items. */
  lemma CandlesComeFromFirstItems(m: MarketKis, symbol: string, limit: int, reply: Option<DailyReply>,
                                  now: int, parseDate: string -> Option<int>, c: Candle)
    requires c in GetCandles(m, symbol, "D", limit, reply, now, parseDate).1
    ensures reply.Some? && reply.value.output.Some?
    ensures exists i :: (0 <= i < |PyTake(reply.value.output.value, limit)|
      && ParseCandle(reply.value.output.value[i], now, parseDate) == Some(c))
  {
    var items := reply.value.output.value;
    var kept := PyTake(items, limit);
    var parsed := ParseAll(kept, now, parseDate);
    InSubMultiset(c, GetCandles(m, symbol, "D", limit, reply, now, parseDate).1, parsed);
    var i :| 0 <= i < |kept| && ParseCandle(kept[i], now, parseDate) == Some(c);
    assert kept[i] == items[i];
  }
}
