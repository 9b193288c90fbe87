/** The application wiring the API and the command line share (api/deps.py):
    symbol naming, universe resolution, candle collection, refreshing the
    live fields of positions, and turning exit signals into at most one
    notification per symbol, rule and day. Market calls are inputs. */
module Deps {
  import opened Wrappers
  import opened Text
  import opened Entities
  import opened Storage
  import opened Symbols
  import opened Risk
  import MarketMock

  /** `resolve_symbol_name`; `marketName` is the market's own answer (None when the market
      has no `get_name`, when it raises, or when it has no name), `extra` the loaded name cache. */
  function ResolveSymbolName(symbol: string, marketName: Option<string>, extra: map<string, string>): (r: string)
    ensures marketName.Some? && marketName.value != "" ==> r == marketName.value
    ensures !(marketName.Some? && marketName.value != "") && GetName(symbol, extra) != "" ==> r == GetName(symbol, extra)
    ensures !(marketName.Some? && marketName.value != "") && GetName(symbol, extra) == "" ==> r == symbol
  {
    if marketName.Some? && marketName.value != "" then marketName.value
    else
      var fallback := GetName(symbol, extra);
      if fallback != "" then fallback else symbol
  }

  /** A symbol with a built-in name resolves to it when the market and the cache are silent. */
  lemma DefaultNameResolves(symbol: string)
    requires symbol in DefaultSymbols
    ensures ResolveSymbolName(symbol, None, map[]) == DefaultNames[symbol]
  {
    var i :| 0 <= i < |DefaultSymbols| && DefaultSymbols[i] == symbol;
    DefaultSymbolsAreNamed(map[], i);
  }

  /** `resolve_universe`: the market's universe when it offers one, else the default
      symbols, and the default symbols whenever the result would be empty. */
  function ResolveUniverse(universe: string, custom: Option<seq<string>>, marketHasUniverse: bool): (r: seq<string>)
    ensures |r| > 0
    ensures var offered := if marketHasUniverse then MarketMock.GetUniverse(Some(universe), custom) else DefaultSymbols;
      && (|offered| > 0 ==> r == offered)
      && (|offered| == 0 ==> r == DefaultSymbols)
  {
    var offered := if marketHasUniverse then MarketMock.GetUniverse(Some(universe), custom) else DefaultSymbols;
    if universe == "CUSTOM" && |offered| == 0 then DefaultSymbols
    else if |offered| == 0 then DefaultSymbols
    else offered
  }

  /** Under any spelling of `CUSTOM`, a non-empty custom list is used as given and an
      empty one falls back to the defaults. */
  lemma CustomUniverseHonoured(name: string, custom: seq<string>)
    requires Upper(name) == "CUSTOM"
    ensures |custom| > 0 ==> ResolveUniverse(name, Some(custom), true) == custom
    ensures |custom| == 0 ==> ResolveUniverse(name, Some(custom), true) == DefaultSymbols
  {
    assert MarketMock.GetUniverse(Some(name), Some(custom)) == custom;
  }

  /** `collect_candles`; `fetch` is the market's answer, None when the call raised. */
  function CollectCandles(symbols: seq<string>, fetch: string -> Option<seq<Candle>>): (r: map<string, seq<Candle>>)
    ensures forall s :: s in r <==> s in symbols
    ensures forall s :: s in r ==> r[s] == fetch(s).GetOr([])
    decreases |symbols|
  {
    if |symbols| == 0 then map[]
    else
      var last := symbols[|symbols| - 1];
      var r := CollectCandles(symbols[..|symbols| - 1], fetch)[last := fetch(last).GetOr([])];
      assert forall s :: s in symbols <==> s in symbols[..|symbols| - 1] || s == last by {
        assert symbols == symbols[..|symbols| - 1] + [last];
      }
      r
  }

  /** `run_cli` after screening: every signal without a name gets the resolved one.
      `marketName` is the market's naming answer per symbol. */
  function NameSignals(signals: seq<Signal>, marketName: string -> Option<string>, extra: map<string, string>): (r: seq<Signal>)
    ensures |r| == |signals|
    ensures forall i :: 0 <= i < |r| ==> (r[i].symbol == signals[i].symbol && r[i].score == signals[i].score
      && r[i].reasons == signals[i].reasons && r[i].name.Some?)
    ensures forall i :: 0 <= i < |r| && signals[i].name.Some? && signals[i].name.value != "" ==> r[i] == signals[i]
    ensures forall i :: 0 <= i < |r| && !(signals[i].name.Some? && signals[i].name.value != "") ==>
      r[i].name == Some(ResolveSymbolName(signals[i].symbol, marketName(signals[i].symbol), extra))
  {
    seq(|signals|, i requires 0 <= i < |signals| =>
      var s := signals[i];
      if s.name.Some? && s.name.value != "" then s
      else s.(name := Some(ResolveSymbolName(s.symbol, marketName(s.symbol), extra))))
  }

  // ------------------------------------------------------------ enrich_positions

  /** The series used for a position: the collected one if non-empty, else a fresh fetch. */
  function SeriesFor(symbol: string, candles: map<string, seq<Candle>>, fetch: string -> seq<Candle>): seq<Candle> {
    if symbol in candles && |candles[symbol]| > 0 then candles[symbol] else fetch(symbol)
  }

  /** The collected series with the fetched one remembered when none was collected. */
  function RememberSeries(symbol: string, candles: map<string, seq<Candle>>, fetch: string -> seq<Candle>): (r: map<string, seq<Candle>>)
    ensures symbol in r && r[symbol] == SeriesFor(symbol, candles, fetch)
    ensures forall s :: s != symbol ==> (s in r <==> s in candles) && (s in candles ==> r[s] == candles[s])
  {
    if symbol in candles && |candles[symbol]| > 0 then candles else candles[symbol := fetch(symbol)]
  }

  /** One position refreshed from its series: the last close becomes the price, the
      profit ratio follows it, and a trailing stop is seeded only when none is set. */
  function Refresh(p: Position, series: seq<Candle>): (q: Position)
    ensures |series| > 0 ==> q.lastPrice == series[|series| - 1].close
    ensures |series| == 0 ==> q.lastPrice == p.lastPrice
    ensures p.avgPrice == 0.0 ==> q.pnlPct == p.pnlPct
    ensures p.trailStop != 0.0 ==> q.trailStop == p.trailStop
    ensures p.trailStop == 0.0 ==> q.trailStop == q.lastPrice
    ensures q == p.(lastPrice := q.lastPrice, pnlPct := q.pnlPct, trailStop := q.trailStop)
  {
    var last := if |series| > 0 then series[|series| - 1].close else p.lastPrice;
    var pnl := if p.avgPrice != 0.0 then (last - p.avgPrice) / p.avgPrice else p.pnlPct;
    var trail := if p.trailStop == 0.0 && last != 0.0 then last else p.trailStop;
    p.(lastPrice := last, pnlPct := pnl, trailStop := trail)
  }

  /** With a cost basis, the refreshed profit ratio is exactly the one implied by the
      refreshed price, and it is what the risk rules read. */
  lemma RefreshedPnlMatchesPrice(p: Position, series: seq<Candle>)
    requires p.avgPrice != 0.0
    ensures var q := Refresh(p, series);
      q.avgPrice * (1.0 + q.pnlPct) == q.lastPrice && q.avgPrice * (1.0 + ResolvePct(q)) == q.lastPrice
  {
    var q := Refresh(p, series);
    assert q.pnlPct == (q.lastPrice - p.avgPrice) / p.avgPrice;
    assert p.avgPrice * ((q.lastPrice - p.avgPrice) / p.avgPrice) == q.lastPrice - p.avgPrice;
  }

  /** Refreshing never moves a trailing stop once one is set, whatever the price does. */
  lemma TrailStopFixedOnceSet(p: Position, s1: seq<Candle>, s2: seq<Candle>)
    requires Refresh(p, s1).trailStop != 0.0
    ensures Refresh(Refresh(p, s1), s2).trailStop == Refresh(p, s1).trailStop
  {
  }

  /** `q` is `p` with only its live fields refreshed, and a set trailing stop kept. */
  predicate Refreshed(p: Position, q: Position) {
    && q == p.(lastPrice := q.lastPrice, pnlPct := q.pnlPct, trailStop := q.trailStop)
    && (p.trailStop != 0.0 ==> q.trailStop == p.trailStop)
  }

  /** The positions with a positive quantity; the others are skipped. */
  function HeldPositions(positions: seq<Position>): (r: seq<Position>)
    ensures |r| <= |positions|
    ensures forall q :: q in r ==> q in positions && q.qty > 0
    ensures forall i :: 0 <= i < |positions| && positions[i].qty > 0 ==> positions[i] in r
    decreases |positions|
  {
    if |positions| == 0 then []
    else
      var rest := HeldPositions(positions[1..]);
      assert forall i :: 1 <= i < |positions| ==> positions[i] == positions[1..][i - 1];
      (if positions[0].qty > 0 then [positions[0]] else []) + rest
  }

  /** Filtering commutes with concatenation, so the held positions keep their input order. */
  lemma {:induction false} HeldPositionsAppend(a: seq<Position>, b: seq<Position>)
    ensures HeldPositions(a + b) == HeldPositions(a) + HeldPositions(b)
    decreases |a|
  {
    if |a| > 0 {
      assert (a + b)[1..] == a[1..] + b;
      HeldPositionsAppend(a[1..], b);
    } else {
      assert a + b == b;
    }
  }

  /** Remembering a fetched series does not change the series any symbol is refreshed
      from, because `fetch` answers the same for the same symbol. */
  lemma SeriesForRemembered(held: string, symbol: string, candles: map<string, seq<Candle>>, fetch: string -> seq<Candle>)
    ensures SeriesFor(symbol, RememberSeries(held, candles, fetch), fetch) == SeriesFor(symbol, candles, fetch)
  {
  }

  /** The map after refreshing `held`: each held symbol maps to the series it was
      refreshed from, and every other entry is untouched. */
  ghost predicate SeriesKept(r: map<string, seq<Candle>>, held: seq<Position>, candles: map<string, seq<Candle>>, fetch: string -> seq<Candle>) {
    && (forall k :: 0 <= k < |held| ==> held[k].symbol in r && r[held[k].symbol] == SeriesFor(held[k].symbol, candles, fetch))
    && (forall s :: (forall k :: 0 <= k < |held| ==> held[k].symbol != s) ==>
          (s in r <==> s in candles) && (s in candles ==> r[s] == candles[s]))
  }

  /** `out` is `held` with each position refreshed from the series collected for its
      symbol, or fetched when none was collected. */
  predicate RefreshedFrom(out: seq<Position>, held: seq<Position>, candles: map<string, seq<Candle>>, fetch: string -> seq<Candle>) {
    |out| == |held| && forall k :: 0 <= k < |held| ==> out[k] == Refresh(held[k], SeriesFor(held[k].symbol, candles, fetch))
  }

  /** The held positions refreshed in order; a fetched series is remembered for later ones. */
  function RefreshAll(held: seq<Position>, candles: map<string, seq<Candle>>, fetch: string -> seq<Candle>): (r: (seq<Position>, map<string, seq<Candle>>))
    ensures RefreshedFrom(r.0, held, candles, fetch)
    ensures forall k :: 0 <= k < |held| ==> Refreshed(held[k], r.0[k])
    ensures SeriesKept(r.1, held, candles, fetch)
    decreases |held|
  {
    if |held| == 0 then ([], candles)
    else
      var q := Refresh(held[0], SeriesFor(held[0].symbol, candles, fetch));
      var remembered := RememberSeries(held[0].symbol, candles, fetch);
      var rest := RefreshAll(held[1..], remembered, fetch);
      RefreshAllStep(held, candles, fetch, remembered, rest.0);
      SeriesKeptStep(held, candles, fetch, remembered, rest.1);
      ([q] + rest.0, rest.1)
  }

  /** One step of `RefreshAll`: the head refreshed against the collected series, the
      tail against the map that remembers the head's. */
  lemma RefreshAllStep(held: seq<Position>, candles: map<string, seq<Candle>>, fetch: string -> seq<Candle>,
                       remembered: map<string, seq<Candle>>, tail: seq<Position>)
    requires |held| > 0 && remembered == RememberSeries(held[0].symbol, candles, fetch)
    requires RefreshedFrom(tail, held[1..], remembered, fetch)
    ensures RefreshedFrom([Refresh(held[0], SeriesFor(held[0].symbol, candles, fetch))] + tail, held, candles, fetch)
  {
    var out := [Refresh(held[0], SeriesFor(held[0].symbol, candles, fetch))] + tail;
    forall k | 1 <= k < |held|
      ensures out[k] == Refresh(held[k], SeriesFor(held[k].symbol, candles, fetch))
    {
      assert out[k] == tail[k - 1];
      assert held[1..][k - 1] == held[k];
      SeriesForRemembered(held[0].symbol, held[k].symbol, candles, fetch);
    }
  }

  /** The remembered-series half of one step of `RefreshAll`. */
  lemma SeriesKeptStep(held: seq<Position>, candles: map<string, seq<Candle>>, fetch: string -> seq<Candle>,
                       remembered: map<string, seq<Candle>>, m: map<string, seq<Candle>>)
    requires |held| > 0 && remembered == RememberSeries(held[0].symbol, candles, fetch)
    requires SeriesKept(m, held[1..], remembered, fetch)
    ensures SeriesKept(m, held, candles, fetch)
  {
    forall k | 0 <= k < |held|
      ensures held[k].symbol in m && m[held[k].symbol] == SeriesFor(held[k].symbol, candles, fetch)
    {
      SeriesForRemembered(held[0].symbol, held[k].symbol, candles, fetch);
      if k > 0 {
        assert held[1..][k - 1] == held[k];
      } else {
        HeadSeriesKept(held, candles, fetch, remembered, m);
      }
    }
    forall s | forall k :: 0 <= k < |held| ==> held[k].symbol != s
      ensures (s in m <==> s in candles) && (s in candles ==> m[s] == candles[s])
    {
      assert held[0].symbol != s;
      assert forall k :: 0 <= k < |held| - 1 ==> held[1..][k] == held[k + 1];
    }
  }

  /** The head's series is in the final map, whether or not a later position shares its symbol. */
  lemma HeadSeriesKept(held: seq<Position>, candles: map<string, seq<Candle>>, fetch: string -> seq<Candle>,
                       remembered: map<string, seq<Candle>>, m: map<string, seq<Candle>>)
    requires |held| > 0 && remembered == RememberSeries(held[0].symbol, candles, fetch)
    requires SeriesKept(m, held[1..], remembered, fetch)
    ensures held[0].symbol in m && m[held[0].symbol] == SeriesFor(held[0].symbol, candles, fetch)
  {
    var sym := held[0].symbol;
    SeriesForRemembered(sym, sym, candles, fetch);
    if j :| 0 <= j < |held| - 1 && held[1..][j].symbol == sym {
      assert m[sym] == SeriesFor(sym, remembered, fetch);
    } else {
      assert forall k :: 0 <= k < |held[1..]| ==> held[1..][k].symbol != sym;
      assert m[sym] == remembered[sym];
    }
  }

  /** `enrich_positions`: the held positions, in order, each refreshed from its collected
      series (or a fresh two-bar fetch when none was collected) and upserted with stamp
      `ts`; each symbol's row ends up holding its last refreshed position. `fetch` is
      the market's two-bar answer. The loop's two effects are independent, so they are
      computed one after the other. */
  function EnrichPositions(positions: seq<Position>, candles: map<string, seq<Candle>>, fetch: string -> seq<Candle>,
                           st: Store, ts: string): (r: (seq<Position>, map<string, seq<Candle>>, Store))
    ensures RefreshedFrom(r.0, HeldPositions(positions), candles, fetch)
    ensures SeriesKept(r.1, HeldPositions(positions), candles, fetch)
    ensures AllRefreshed(HeldPositions(positions), r.0)
    ensures forall k :: 0 <= k < |r.0| ==> r.0[k].qty > 0
    ensures StoresLast(r.2.positions, r.0, ts)
    ensures forall k :: 0 <= k < |r.0| ==> Lookup(r.2.positions, r.0[k].symbol).Some?
    ensures KeepsOthers(r.2.positions, st.positions, r.0)
    ensures r.2.logs == st.logs && r.2.trades == st.trades && r.2.symbols == st.symbols
  {
    var held := HeldPositions(positions);
    var refreshed := RefreshAll(held, candles, fetch);
    var stored := UpsertPositions(st, refreshed.0, ts);
    EnrichedRowsHeld(held, refreshed.0, st, ts);
    (refreshed.0, refreshed.1, stored)
  }

  /** The refreshed positions of held ones are held, and each has a stored row. */
  lemma EnrichedRowsHeld(held: seq<Position>, out: seq<Position>, st: Store, ts: string)
    requires forall q :: q in held ==> q.qty > 0
    requires AllRefreshed(held, out)
    ensures forall k :: 0 <= k < |out| ==> out[k].qty > 0
    ensures forall k :: 0 <= k < |out| ==> Lookup(UpsertPositions(st, out, ts).positions, out[k].symbol).Some?
  {
    assert forall k :: 0 <= k < |held| ==> held[k] in held;
    forall k | 0 <= k < |out| ensures Lookup(UpsertPositions(st, out, ts).positions, out[k].symbol).Some? {
      UpsertPositionsStoresAll(st, out, ts, k);
    }
  }

  predicate AllRefreshed(before: seq<Position>, after: seq<Position>) {
    |before| == |after| && forall k :: 0 <= k < |after| ==> Refreshed(before[k], after[k])
  }

  // ------------------------------------------------------------ handle_exit_signals

  /** The exit rule of the risk module for one configuration and instant. */
  function ExitRule(cfg: RiskConfig, now: Instant, f: NumberFormat): Position -> Option<ExitSignal> {
    p => EvaluateExit(p, cfg, now, f)
  }

  /** Every reported pair is a position of the input with the signal `eval` gives it. */
  predicate SignalsSound(results: seq<(Position, ExitSignal)>, positions: seq<Position>, eval: Position -> Option<ExitSignal>) {
    forall k :: 0 <= k < |results| ==> (results[k].0 in positions && eval(results[k].0) == Some(results[k].1))
  }

  /** Every position with a signal is reported. */
  predicate SignalsComplete(results: seq<(Position, ExitSignal)>, positions: seq<Position>, eval: Position -> Option<ExitSignal>) {
    forall i :: 0 <= i < |positions| && eval(positions[i]).Some? ==>
      (exists k :: 0 <= k < |results| && results[k].0 == positions[i])
  }

  /** The positions that raise an exit signal under `eval`, in order, with their signals. */
  function Signals(positions: seq<Position>, eval: Position -> Option<ExitSignal>): (r: seq<(Position, ExitSignal)>)
    ensures |r| <= |positions|
    ensures SignalsSound(r, positions, eval)
    ensures SignalsComplete(r, positions, eval)
    decreases |positions|
  {
    if |positions| == 0 then []
    else
      var rest := Signals(positions[1..], eval);
      SignalsConsSound(positions, rest, eval);
      SignalsConsComplete(positions, rest, eval);
      ConsSignal(positions[0], rest, eval)
  }

  /** The report `Signals` builds from the head position and the tail's report. */
  function ConsSignal(p: Position, rest: seq<(Position, ExitSignal)>, eval: Position -> Option<ExitSignal>): seq<(Position, ExitSignal)> {
    if eval(p).Some? then [(p, eval(p).value)] + rest else rest
  }

  /** One step of `Signals` keeps the report sound. */
  lemma SignalsConsSound(positions: seq<Position>, rest: seq<(Position, ExitSignal)>, eval: Position -> Option<ExitSignal>)
    requires |positions| > 0
    requires SignalsSound(rest, positions[1..], eval)
    ensures SignalsSound(ConsSignal(positions[0], rest, eval), positions, eval)
  {
    assert forall q :: q in positions[1..] ==> q in positions;
  }

  /** One step of `Signals` keeps the report complete. */
  lemma SignalsConsComplete(positions: seq<Position>, rest: seq<(Position, ExitSignal)>, eval: Position -> Option<ExitSignal>)
    requires |positions| > 0
    requires SignalsComplete(rest, positions[1..], eval)
    ensures SignalsComplete(ConsSignal(positions[0], rest, eval), positions, eval)
  {
    var r := ConsSignal(positions[0], rest, eval);
    forall i | 0 <= i < |positions| && eval(positions[i]).Some?
      ensures exists k :: 0 <= k < |r| && r[k].0 == positions[i]
    {
      if i == 0 {
        assert r[0].0 == positions[0];
      } else {
        assert positions[i] == positions[1..][i - 1];
        var k :| 0 <= k < |rest| && rest[k].0 == positions[1..][i - 1];
        if eval(positions[0]).Some? {
          assert r[k + 1].0 == positions[i];
        } else {
          assert r[k].0 == positions[i];
        }
      }
    }
  }

  /** The alert key `symbol:type:date` of a reported pair. */
  function KeyFor(pair: (Position, ExitSignal)): string
    requires pair.1.triggeredAt.date.Valid()
  {
    AlertKey(pair.0.symbol, pair.1.signalType, pair.1.triggeredAt.date)
  }

  /** `KeyFor` on every pair; a pair without a valid date, which the exit rule never
      reports, gets the empty key. */
  function AlertKeyOf(pair: (Position, ExitSignal)): (r: string)
    ensures pair.1.triggeredAt.date.Valid() ==> r == KeyFor(pair)
  {
    if pair.1.triggeredAt.date.Valid() then KeyFor(pair) else ""
  }

  predicate Dated(results: seq<(Position, ExitSignal)>) {
    forall k :: 0 <= k < |results| ==> results[k].1.triggeredAt.date.Valid()
  }

  /** Every pair's key under `key` is remembered in `logs`. */
  predicate KeysRemembered(results: seq<(Position, ExitSignal)>, logs: seq<LogEntry>, key: ((Position, ExitSignal)) -> string) {
    forall k :: 0 <= k < |results| ==> HasAlert(logs, key(results[k]))
  }

  /** The notification text for a pair, naming the symbol when names are shown. */
  function AlertMessage(pair: (Position, ExitSignal), showNames: bool, marketName: string -> Option<string>,
                        extra: map<string, string>): string
  {
    var name := if showNames then Some(ResolveSymbolName(pair.0.symbol, marketName(pair.0.symbol), extra)) else None;
    FormatExitMessage(pair.1, name)
  }

  /** The notification half of the loop: each pair's key is remembered and its message
      sent only when the key is new. `key` and `message` give a pair's alert key and
      text; `today` stamps the log entries. */
  function Notify(results: seq<(Position, ExitSignal)>, st: Store, key: ((Position, ExitSignal)) -> string,
                  message: ((Position, ExitSignal)) -> string, today: Date): (r: (seq<string>, Store))
    ensures |r.0| <= |results|
    ensures |st.logs| <= |r.1.logs| && r.1.logs[..|st.logs|] == st.logs
    ensures r.1.trades == st.trades && r.1.positions == st.positions && r.1.symbols == st.symbols
    decreases |results|
  {
    if |results| == 0 then ([], st)
    else
      var (isNew, st1) := RememberKey(st, key(results[0]), today);
      var rest := Notify(results[1..], st1, key, message, today);
      assert rest.1.logs[..|st.logs|] == st.logs by {
        assert st1.logs[..|st.logs|] == st.logs;
        assert rest.1.logs[..|st1.logs|][..|st.logs|] == rest.1.logs[..|st.logs|];
      }
      ((if isNew then [message(results[0])] else []) + rest.0, rest.1)
  }

  /** After notifying, every reported pair's key is remembered in the log. */
  lemma {:induction false} NotifyRemembers(results: seq<(Position, ExitSignal)>, st: Store, key: ((Position, ExitSignal)) -> string,
                                           message: ((Position, ExitSignal)) -> string, today: Date)
    ensures KeysRemembered(results, Notify(results, st, key, message, today).1.logs, key)
    decreases |results|
  {
    if |results| > 0 {
      var st1 := RememberKey(st, key(results[0]), today).1;
      var logs := Notify(results[1..], st1, key, message, today).1.logs;
      assert Notify(results, st, key, message, today).1.logs == logs;
      NotifyRemembers(results[1..], st1, key, message, today);
      HasAlertExtends(st1.logs, logs, key(results[0]));
      forall k | 1 <= k < |results| ensures HasAlert(logs, key(results[k])) {
        assert results[k] == results[1..][k - 1];
      }
    }
  }

  /** The pair at `k` is the first of `results` with its key, and the key was not
      remembered in `logs` beforehand. */
  predicate FirstOfKey(results: seq<(Position, ExitSignal)>, logs: seq<LogEntry>, k: nat, key: ((Position, ExitSignal)) -> string)
    requires k < |results|
  {
    && !HasAlert(logs, key(results[k]))
    && forall j :: 0 <= j < k ==> key(results[j]) != key(results[k])
  }

  /** The messages of the pairs below `n` that are first with a key not remembered in
      `logs`, in order: what one pass should send. */
  function FirstAlerts(results: seq<(Position, ExitSignal)>, logs: seq<LogEntry>, n: nat,
                       key: ((Position, ExitSignal)) -> string, message: ((Position, ExitSignal)) -> string): seq<string>
    requires n <= |results|
  {
    if n == 0 then []
    else FirstAlerts(results, logs, n - 1, key, message)
         + (if FirstOfKey(results, logs, n - 1, key) then [message(results[n - 1])] else [])
  }

  /** `logs` remembers the keys of `before` and those of the pairs below `i`, and no other. */
  ghost predicate RememberedUpTo(logs: seq<LogEntry>, before: seq<LogEntry>, results: seq<(Position, ExitSignal)>, i: nat,
                                 key: ((Position, ExitSignal)) -> string)
    requires i <= |results|
  {
    forall x :: HasAlert(logs, x) <==> HasAlert(before, x) || exists j :: 0 <= j < i && key(results[j]) == x
  }

  /** Notifying the pairs from `i` on sends the rest of the first-alert messages, when
      the log remembers exactly the keys seen before `i`. */
  lemma {:induction false} NotifySends(results: seq<(Position, ExitSignal)>, st: Store, i: nat, sti: Store,
                                       key: ((Position, ExitSignal)) -> string, message: ((Position, ExitSignal)) -> string, today: Date)
    requires i <= |results|
    requires RememberedUpTo(sti.logs, st.logs, results, i, key)
    ensures FirstAlerts(results, st.logs, i, key, message) + Notify(results[i..], sti, key, message, today).0
         == FirstAlerts(results, st.logs, |results|, key, message)
    decreases |results| - i
  {
    if i < |results| {
      var st1 := RememberKey(sti, key(results[i]), today).1;
      RememberedStep(results, st, i, sti, key, today);
      NotifyStep(results, st.logs, i, sti, key, message, today);
      NotifySends(results, st, i + 1, st1, key, message, today);
    }
  }

  /** One step of `NotifySends`: what is sent for the pair at `i` extends the first
      alerts below `i` to those below `i + 1`. */
  lemma NotifyStep(results: seq<(Position, ExitSignal)>, logs: seq<LogEntry>, i: nat, sti: Store,
                   key: ((Position, ExitSignal)) -> string, message: ((Position, ExitSignal)) -> string, today: Date)
    requires i < |results|
    requires RememberKey(sti, key(results[i]), today).0 <==> FirstOfKey(results, logs, i, key)
    ensures var st1 := RememberKey(sti, key(results[i]), today).1;
      FirstAlerts(results, logs, i, key, message) + Notify(results[i..], sti, key, message, today).0
      == FirstAlerts(results, logs, i + 1, key, message) + Notify(results[i + 1..], st1, key, message, today).0
  {
    var pair := results[i];
    var (isNew, st1) := RememberKey(sti, key(pair), today);
    var msgs := if isNew then [message(pair)] else [];
    var before := FirstAlerts(results, logs, i, key, message);
    assert FirstAlerts(results, logs, i + 1, key, message) == before + msgs;
    var later := Notify(results[i + 1..], st1, key, message, today).0;
    assert Notify(results[i..], sti, key, message, today).0 == msgs + later by {
      assert results[i..][0] == pair;
      assert results[i..][1..] == results[i + 1..];
    }
    assert before + (msgs + later) == (before + msgs) + later;
  }

  /** Remembering the pair at `i` adds its key, and it was new exactly when the pair is first with it. */
  lemma RememberedStep(results: seq<(Position, ExitSignal)>, st: Store, i: nat, sti: Store,
                       key: ((Position, ExitSignal)) -> string, today: Date)
    requires i < |results|
    requires RememberedUpTo(sti.logs, st.logs, results, i, key)
    ensures var (isNew, st1) := RememberKey(sti, key(results[i]), today);
      (isNew <==> FirstOfKey(results, st.logs, i, key)) && RememberedUpTo(st1.logs, st.logs, results, i + 1, key)
  {
    var k := key(results[i]);
    var (isNew, st1) := RememberKey(sti, k, today);
    forall x ensures HasAlert(st1.logs, x) <==> HasAlert(st.logs, x) || exists j :: 0 <= j < i + 1 && key(results[j]) == x {
      if isNew {
        HasAlertAppend(sti.logs, LogEntry("alert", k, today), x);
      }
    }
  }

  /** A notification pass sends, in order, the message of each pair whose key is neither
      remembered beforehand nor the key of an earlier pair. */
  lemma NotifySendsFirstAlerts(results: seq<(Position, ExitSignal)>, st: Store, key: ((Position, ExitSignal)) -> string,
                               message: ((Position, ExitSignal)) -> string, today: Date)
    ensures Notify(results, st, key, message, today).0 == FirstAlerts(results, st.logs, |results|, key, message)
  {
    assert results[0..] == results;
    NotifySends(results, st, 0, st, key, message, today);
  }

  /** The message a pass sends for a pair, under its naming options. */
  function AlertText(showNames: bool, marketName: string -> Option<string>, extra: map<string, string>): ((Position, ExitSignal)) -> string {
    pair => AlertMessage(pair, showNames, marketName, extra)
  }

  /** The outcome of one pass: every (position, signal) pair, the notifications sent, and storage. */
  datatype ExitRun = ExitRun(results: seq<(Position, ExitSignal)>, sent: seq<string>, store: Store)

  /** `handle_exit_signals`: every position with a signal is reported, in input order,
      but a notification goes out only for a pair whose `symbol:type:date` key is
      neither remembered beforehand nor the key of an earlier pair. `marketName` is the
      market's naming answer per symbol. The signals do not depend on storage, so they
      are computed before the notifications. */
  function HandleExitSignals(positions: seq<Position>, cfg: RiskConfig, st: Store, now: Instant, f: NumberFormat,
                             showNames: bool, marketName: string -> Option<string>, extra: map<string, string>, today: Date): (r: ExitRun)
    requires now.date.Valid()
    ensures r.results == Signals(positions, ExitRule(cfg, now, f))
    ensures SignalsSound(r.results, positions, ExitRule(cfg, now, f)) && SignalsComplete(r.results, positions, ExitRule(cfg, now, f))
    ensures |r.results| <= |positions| && |r.sent| <= |r.results|
    ensures Dated(r.results) && KeysRemembered(r.results, r.store.logs, AlertKeyOf)
    ensures r.sent == FirstAlerts(r.results, st.logs, |r.results|, AlertKeyOf, AlertText(showNames, marketName, extra))
    ensures |st.logs| <= |r.store.logs| && r.store.logs[..|st.logs|] == st.logs
    ensures r.store.trades == st.trades && r.store.positions == st.positions && r.store.symbols == st.symbols
  {
    var results := Signals(positions, ExitRule(cfg, now, f));
    assert Dated(results) by {
      forall k | 0 <= k < |results| ensures results[k].1.triggeredAt == now {
        assert EvaluateExit(results[k].0, cfg, now, f) == Some(results[k].1);
      }
    }
    var message := AlertText(showNames, marketName, extra);
    var n := Notify(results, st, AlertKeyOf, message, today);
    NotifyRemembers(results, st, AlertKeyOf, message, today);
    NotifySendsFirstAlerts(results, st, AlertKeyOf, message, today);
    ExitRun(results, n.0, n.1)
  }

  /** When every pair's key is already remembered, nothing is sent and storage is left as it is. */
  lemma {:induction false} RememberedSendsNothing(results: seq<(Position, ExitSignal)>, st: Store, key: ((Position, ExitSignal)) -> string,
                                                 message: ((Position, ExitSignal)) -> string, today: Date)
    requires KeysRemembered(results, st.logs, key)
    ensures Notify(results, st, key, message, today) == ([], st)
    decreases |results|
  {
    if |results| > 0 {
      assert HasAlert(st.logs, key(results[0]));
      assert KeysRemembered(results[1..], st.logs, key) by {
        assert forall k :: 0 <= k < |results| - 1 ==> results[1..][k] == results[k + 1];
      }
      RememberedSendsNothing(results[1..], st, key, message, today);
    }
  }

  /** Running the exit pass twice on the same instant: the second pass reports the same
      signals but sends no notification and leaves storage unchanged. */
  lemma SecondPassSendsNothing(positions: seq<Position>, cfg: RiskConfig, st: Store, now: Instant, f: NumberFormat,
                               showNames: bool, marketName: string -> Option<string>, extra: map<string, string>, today: Date, later: Date)
    requires now.date.Valid()
    ensures var first := HandleExitSignals(positions, cfg, st, now, f, showNames, marketName, extra, today);
      var second := HandleExitSignals(positions, cfg, first.store, now, f, showNames, marketName, extra, later);
      second.sent == [] && second.results == first.results && second.store == first.store
  {
    var first := HandleExitSignals(positions, cfg, st, now, f, showNames, marketName, extra, today);
    RememberedSendsNothing(first.results, first.store, AlertKeyOf, AlertText(showNames, marketName, extra), later);
  }

  /** A signal whose key has not been seen is sent, with the display name when names are shown. */
  lemma NewSignalIsSent(p: Position, cfg: RiskConfig, st: Store, now: Instant, f: NumberFormat,
                        marketName: string -> Option<string>, extra: map<string, string>, today: Date)
    requires now.date.Valid()
    requires EvaluateExit(p, cfg, now, f).Some?
    requires !HasAlert(st.logs, KeyFor((p, EvaluateExit(p, cfg, now, f).value)))
    ensures HandleExitSignals([p], cfg, st, now, f, true, marketName, extra, today).sent
      == [FormatExitMessage(EvaluateExit(p, cfg, now, f).value, Some(ResolveSymbolName(p.symbol, marketName(p.symbol), extra)))]
  {
  }

  /** The report of a concatenation is the concatenation of the reports: pairs come out
      in input order. */
  lemma {:induction false} SignalsAppend(a: seq<Position>, b: seq<Position>, eval: Position -> Option<ExitSignal>)
    ensures Signals(a + b, eval) == Signals(a, eval) + Signals(b, eval)
    decreases |a|
  {
    if |a| == 0 {
      assert a + b == b;
    } else {
      assert (a + b)[1..] == a[1..] + b;
      assert (a + b)[0] == a[0];
      SignalsAppend(a[1..], b, eval);
    }
  }

  /** A single position is reported exactly when it raises a signal. */
  lemma SignalsOfOne(p: Position, eval: Position -> Option<ExitSignal>)
    ensures Signals([p], eval) == if eval(p).Some? then [(p, eval(p).value)] else []
  {
    assert [p][1..] == [];
  }
}
