/** The records the decision core works on (core/entities.py), with the
    position fields the risk evaluator, the storage rows and the broker's
    balance parsing use, and the exit signal the risk evaluator returns. */
module Entities {
  import opened Wrappers
  import opened Text
  import StableSort

  // ---------------------------------------------------------------- dates

  function Pow10(w: nat): (p: nat)
    ensures p >= 1
  {
    if w == 0 then 1 else 10 * Pow10(w - 1)
  }

  /** Python's `int(x)` on a float: truncation toward zero. */
  function Trunc(x: real): (r: int)
    ensures x >= 0.0 ==> r as real <= x < r as real + 1.0
    ensures x < 0.0 ==> r as real - 1.0 < x <= r as real
  {
    if x >= 0.0 then x.Floor else -((-x).Floor)
  }

  /** A numeric field of a JSON reply: absent, present but falsy (`None`, `""`, `0`),
      a truthy value `float()` accepts, or one it rejects. */
  datatype NumField = Absent | Falsy | Value(v: real) | Bad

  /** A calendar date as Python's `date` holds it. */
  datatype Date = Date(year: int, month: int, day: int) {
    predicate Valid() {
      1 <= year <= 9999 && 1 <= month <= 12 && 1 <= day <= 31
    }
  }

  /** A point in time: the calendar date it falls on and the seconds into that day. */
  datatype Instant = Instant(date: Date, secondOfDay: nat)

  /** `n` written with exactly `w` decimal digits, zero-padded on the left. */
  function Pad(n: nat, w: nat): (r: string)
    requires n < Pow10(w)
    ensures |r| == w
  {
    if w == 0 then "" else
      assert n / 10 * 10 <= n;
      Pad(n / 10, w - 1) + [DigitChar(n % 10)]
  }

  /** The number a string of decimal digits denotes. */
  function DigitsValue(s: string): int
  {
    if |s| == 0 then 0 else DigitsValue(s[..|s| - 1]) * 10 + (s[|s| - 1] as int - '0' as int)
  }

  lemma {:induction false} PadValue(n: nat, w: nat)
    requires n < Pow10(w)
    ensures DigitsValue(Pad(n, w)) == n
  {
    if w > 0 {
      assert n / 10 * 10 <= n;
      PadValue(n / 10, w - 1);
      var p := Pad(n, w);
      assert p[..|p| - 1] == Pad(n / 10, w - 1);
      var d := n % 10;
      assert DigitChar(d) as int - '0' as int == d;
    }
  }

  /** `date.isoformat()`: `YYYY-MM-DD`. */
  function IsoFormat(d: Date): (r: string)
    requires d.Valid()
    ensures |r| == 10 && r[4] == '-' && r[7] == '-'
  {
    assert Pow10(4) == 10000 && Pow10(2) == 100;
    Pad(d.year, 4) + "-" + Pad(d.month, 2) + "-" + Pad(d.day, 2)
  }

  /** Two valid dates print to the same ISO text only if they are the same date. */
  lemma IsoFormatInjective(d1: Date, d2: Date)
    requires d1.Valid() && d2.Valid()
    requires IsoFormat(d1) == IsoFormat(d2)
    ensures d1 == d2
  {
    var s1, s2 := IsoFormat(d1), IsoFormat(d2);
    assert s1[..4] == Pad(d1.year, 4) && s2[..4] == Pad(d2.year, 4);
    assert s1[5..7] == Pad(d1.month, 2) && s2[5..7] == Pad(d2.month, 2);
    assert s1[8..] == Pad(d1.day, 2) && s2[8..] == Pad(d2.day, 2);
    assert Pow10(4) == 10000 && Pow10(2) == 100;
    PadValue(d1.year, 4); PadValue(d2.year, 4);
    PadValue(d1.month, 2); PadValue(d2.month, 2);
    PadValue(d1.day, 2); PadValue(d2.day, 2);
  }

  // -------------------------------------------------------------- candles

  /** One OHLCV bar; `timestamp` is an abstract, totally ordered instant. */
  datatype Candle = Candle(symbol: string, timestamp: int, open: real, high: real, low: real, close: real, volume: real)

  /** `Candle.change_ratio`: 0 when the open is 0. */
  function ChangeRatio(c: Candle): (r: real)
    ensures c.open == 0.0 ==> r == 0.0
    ensures c.open != 0.0 ==> c.open * (1.0 + r) == c.close
    ensures c.open > 0.0 ==> (r > 0.0 <==> c.close > c.open)
  {
    if c.open == 0.0 then 0.0 else (c.close - c.open) / c.open
  }

  /** `Candle.body_size`: the distance between open and close. */
  function BodySize(c: Candle): (r: real)
    ensures r >= 0.0
    ensures r == c.close - c.open || r == c.open - c.close
  {
    if c.close >= c.open then c.close - c.open else c.open - c.close
  }

  /** `Candle.range_size`. */
  function RangeSize(c: Candle): real
  {
    c.high - c.low
  }

  /** A bar whose high and low enclose its open and close. */
  predicate WellFormed(c: Candle) {
    c.low <= c.open <= c.high && c.low <= c.close <= c.high
  }

  /** In a well-formed bar the body fits inside the range. */
  lemma BodyWithinRange(c: Candle)
    requires WellFormed(c)
    ensures 0.0 <= BodySize(c) <= RangeSize(c)
  {
  }

  // -------------------------------------------------------------- signals

  /** A scored candidate; `name` is the optional display name the strategy attaches. */
  datatype Signal = Signal(symbol: string, score: real, reasons: seq<string>, name: Option<string>)

  /** `Signal.summary`; `fmt` stands for the two-decimal float formatting. */
  function Summary(s: Signal, fmt: real -> string): (r: string)
    ensures StartsWith(r, s.symbol + " (score=" + fmt(s.score) + ") — ")
    ensures |s.reasons| == 0 ==> EndsWith(r, "N/A")
    ensures |s.reasons| > 0 ==> EndsWith(r, Join(s.reasons, ", "))
  {
    var head := s.symbol + " (score=" + fmt(s.score) + ") — ";
    var tail := if |s.reasons| > 0 then Join(s.reasons, ", ") else "N/A";
    assert (head + tail)[..|head|] == head;
    assert (head + tail)[|head + tail| - |tail|..] == tail;
    head + tail
  }

  /** The sort key that turns the ascending stable sort into `reverse=True` by score. */
  function NegScore(s: Signal): real { -s.score }

  predicate IsPrefix<T(==)>(a: seq<T>, b: seq<T>) {
    |a| <= |b| && b[..|a|] == a
  }

  lemma {:induction false} WithKeyOfPrefix<T>(s: seq<T>, k: nat, key: T -> real, v: real)
    requires k <= |s|
    ensures IsPrefix(StableSort.WithKey(s[..k], key, v), StableSort.WithKey(s, key, v))
  {
    if k > 0 {
      WithKeyOfPrefix(s[1..], k - 1, key, v);
      assert s[..k][1..] == s[1..][..k - 1];
    }
  }

  /** `top_n_signals`: the signals sorted by descending score, stably, then `[:n]`. */
  function TopNSignals(signals: seq<Signal>, n: int): (r: seq<Signal>)
    ensures n >= 0 ==> |r| == if n < |signals| then n else |signals|
    ensures forall i, j :: 0 <= i < j < |r| ==> r[i].score >= r[j].score
    ensures multiset(r) <= multiset(signals)
  {
    var full := StableSort.SortBy(signals, NegScore);
    StableSort.SortBySorted(signals, NegScore);
    var r := PyTake(full, n);
    TakeSubMultiset(full, n);
    assert forall i :: 0 <= i < |r| ==> r[i] == full[i];
    r
  }

  /** Every kept signal is one of the input signals. */
  lemma TopNFromInput(signals: seq<Signal>, n: int, s: Signal)
    requires s in TopNSignals(signals, n)
    ensures s in signals
  {
    InSubMultiset(s, TopNSignals(signals, n), signals);
  }

  /** No signal left out of the top `n` scores more than one kept in it. */
  lemma TopNKeepsBest(signals: seq<Signal>, n: int, x: Signal, y: Signal)
    requires x in signals && multiset(TopNSignals(signals, n))[x] < multiset(signals)[x]
    requires y in TopNSignals(signals, n)
    ensures x.score <= y.score
  {
    var full := StableSort.SortBy(signals, NegScore);
    StableSort.SortBySorted(signals, NegScore);
    var r := TopNSignals(signals, n);
    assert r == PyTake(full, n) == full[..|r|];
    var i := InRest(full, |r|, x);
    var j :| 0 <= j < |r| && r[j] == y;
    assert full[j] == y;
  }

  /** `top_n_signals` is stable: among equal scores, the kept signals are the
      first ones of the input, in input order. */
  lemma TopNStable(signals: seq<Signal>, n: int, v: real)
    ensures IsPrefix(StableSort.WithKey(TopNSignals(signals, n), NegScore, v), StableSort.WithKey(signals, NegScore, v))
  {
    var full := StableSort.SortBy(signals, NegScore);
    var r := TopNSignals(signals, n);
    assert r == PyTake(full, n);
    WithKeyOfPrefix(full, |r|, NegScore, v);
    StableSort.SortByStable(signals, NegScore, v);
  }

  // ------------------------------------------------------------ positions

  /** A holding with the live fields the risk evaluator reads. */
  datatype Position = Position(
    symbol: string, qty: int, avgPrice: real,
    lastPrice: real, pnlPct: real, trailStop: real, hardStop: real, takeProfitPrice: real)

  /** A position as the constructor builds it from symbol, quantity and average price alone. */
  function NewPosition(symbol: string, qty: int, avgPrice: real): Position {
    Position(symbol, qty, avgPrice, 0.0, 0.0, 0.0, 0.0, 0.0)
  }

  /** `Position.market_value`. */
  function MarketValue(p: Position, lastPrice: real): (r: real)
    ensures p.qty == 0 || lastPrice == 0.0 ==> r == 0.0
    ensures p.qty > 0 && lastPrice > 0.0 ==> r > 0.0
    ensures p.qty < 0 && lastPrice > 0.0 ==> r < 0.0
  {
    p.qty as real * lastPrice
  }

  /** `Position.unrealized_pnl`. */
  function UnrealizedPnl(p: Position, lastPrice: real): (r: real)
    ensures p.qty == 0 || lastPrice == p.avgPrice ==> r == 0.0
  {
    (lastPrice - p.avgPrice) * p.qty as real
  }

  /** The unrealised profit is the market value less the cost basis; for a long
      position it is positive exactly when the price is above the average. */
  lemma PnlIsValueLessCost(p: Position, lastPrice: real)
    ensures UnrealizedPnl(p, lastPrice) == MarketValue(p, lastPrice) - p.qty as real * p.avgPrice
    ensures p.qty > 0 ==> (UnrealizedPnl(p, lastPrice) > 0.0 <==> lastPrice > p.avgPrice)
  {
    if p.qty > 0 && lastPrice <= p.avgPrice {
      assert (lastPrice - p.avgPrice) * p.qty as real <= 0.0;
    }
  }

  /** The two float renderings the messages use: `{x:.2f}` and `{x:,.2f}`.
      Their digits are not modelled; only where they appear in a message is. */
  datatype NumberFormat = NumberFormat(fixed2: real -> string, grouped2: real -> string)

  /** The exit recommendation the risk evaluator returns. */
  datatype ExitSignal = ExitSignal(symbol: string, signalType: string, message: string, triggeredAt: Instant)
}
