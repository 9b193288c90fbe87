/** The deterministic mock market (adapters/market_mock.py): its symbol
    universes, timeframe parsing, and the random-walk candle generator with
    the random draws and the clock as parameters. */
module MarketMock {
  import opened Wrappers
  import opened Text
  import opened Entities
  import opened Symbols

  const MockSymbols: seq<string> := IterDefaultSymbols()

  /** `THEMES`: the first six symbols. */
  const Themes: seq<string> := MockSymbols[..6]

  function KqSymbols(s: seq<string>): (r: seq<string>)
    ensures forall x :: x in r <==> x in s && EndsWith(x, ".KQ")
    decreases |s|
  {
    if |s| == 0 then [] else (if EndsWith(s[0], ".KQ") then [s[0]] else []) + KqSymbols(s[1..])
  }

  /** `KOSDAQ_TOP150`: the KOSDAQ-listed symbols, or every symbol when there are none. */
  function KosdaqTop150(): (r: seq<string>)
    ensures |KqSymbols(MockSymbols)| > 0 ==> r == KqSymbols(MockSymbols)
    ensures |KqSymbols(MockSymbols)| == 0 ==> r == MockSymbols
  {
    var kq := KqSymbols(MockSymbols);
    if |kq| > 0 then kq else MockSymbols
  }

  /** The theme list is six symbols of the full table. */
  lemma ThemesAreSymbols()
    ensures |Themes| == 6 && forall t :: t in Themes ==> t in MockSymbols
  {
  }

  /** The KOSDAQ universe is the one ".KQ" symbol of the table, so it is never empty. */
  lemma KosdaqTop150NonEmpty()
    ensures |KosdaqTop150()| > 0 && |MockSymbols| == 15
  {
    KosdaqEntry();
    assert "096770.KQ" in KqSymbols(MockSymbols);
  }

  lemma KosdaqEntry()
    ensures "096770.KQ" in MockSymbols && EndsWith("096770.KQ", ".KQ")
  {
    assert MockSymbols[8] == "096770.KQ";
    var x := "096770.KQ";
    assert x[|x| - 3..] == ".KQ";
  }

  /** `get_themes`. */
  function GetThemes(): (r: seq<string>)
    ensures r == MockSymbols[..6]
  {
    Themes
  }

  /** The universe for an already upper-cased name. */
  function UniverseFor(key: string, custom: Option<seq<string>>): (r: seq<string>)
    ensures key == "CUSTOM" ==> r == custom.GetOr([])
    ensures key == "KOSDAQ_TOP150" ==> r == KosdaqTop150()
    ensures key != "CUSTOM" && key != "KOSDAQ_TOP150" ==> r == MockSymbols
  {
    if key == "CUSTOM" then custom.GetOr([])
    else if key == "KOSDAQ_TOP150" then KosdaqTop150()
    else MockSymbols
  }

  /** `get_universe`: the name upper-cased; `CUSTOM` gives the caller's list (or nothing),
      a known universe its list, and any other name every symbol. */
  function GetUniverse(name: Option<string>, custom: Option<seq<string>>): (r: seq<string>)
    ensures var key := Upper(name.GetOr(""));
      && (key == "CUSTOM" ==> r == custom.GetOr([]))
      && (key == "KOSPI_TOP200" ==> r == MockSymbols)
      && (key == "KOSDAQ_TOP150" ==> r == KosdaqTop150())
      && (key != "CUSTOM" && key != "KOSPI_TOP200" && key != "KOSDAQ_TOP150" ==> r == MockSymbols)
  {
    UniverseFor(Upper(name.GetOr("")), custom)
  }

  lemma UpperOfLower(s: string)
    ensures Upper(Lower(s)) == Upper(s)
  {
    var a := Upper(Lower(s));
    var b := Upper(s);
    assert |a| == |b|;
    forall i | 0 <= i < |s| ensures a[i] == b[i] {
      assert a[i] == AsciiUpperChar(AsciiLowerChar(s[i]));
    }
  }

  lemma UpperOfUpper(s: string)
    ensures Upper(Upper(s)) == Upper(s)
  {
    var a := Upper(Upper(s));
    var b := Upper(s);
    assert |a| == |b|;
    forall i | 0 <= i < |s| ensures a[i] == b[i] {
      assert a[i] == AsciiUpperChar(AsciiUpperChar(s[i]));
    }
  }

  /** Universe names are matched without regard to ASCII case. */
  lemma UniverseCaseInsensitive(name: string, custom: Option<seq<string>>)
    ensures GetUniverse(Some(Lower(name)), custom) == GetUniverse(Some(name), custom)
    ensures GetUniverse(Some(Upper(name)), custom) == GetUniverse(Some(name), custom)
  {
    UpperOfLower(name);
    UpperOfUpper(name);
    SameKeySameUniverse(Lower(name), name, custom);
    SameKeySameUniverse(Upper(name), name, custom);
  }

  lemma SameKeySameUniverse(a: string, b: string, custom: Option<seq<string>>)
    requires Upper(a) == Upper(b)
    ensures GetUniverse(Some(a), custom) == GetUniverse(Some(b), custom)
  {
    assert GetUniverse(Some(a), custom) == UniverseFor(Upper(a), custom);
    assert GetUniverse(Some(b), custom) == UniverseFor(Upper(b), custom);
  }

  predicate AllDigits(s: string) {
    forall i :: 0 <= i < |s| ==> '0' <= s[i] <= '9'
  }

  /** The text after one optional leading sign. */
  function Unsigned(t: string): (u: string)
    ensures |u| <= |t|
  {
    if |t| > 0 && (t[0] == '-' || t[0] == '+') then t[1..] else t
  }

  /** Python's `int(s)` on a decimal string: surrounding whitespace and one sign allowed;
      None where `int` raises. */
  function ParseInt(s: string): (r: Option<int>)
    ensures r.Some? ==> |Strip(s)| > 0
    ensures AllDigits(s) && |s| > 0 ==> r == Some(DigitsValue(s))
    ensures r.Some? <==> |Unsigned(Strip(s))| > 0 && AllDigits(Unsigned(Strip(s)))
    ensures r.Some? ==> r.value == if Strip(s)[0] == '-' then -DigitsValue(Unsigned(Strip(s))) else DigitsValue(Unsigned(Strip(s)))
  {
    assert AllDigits(s) && |s| > 0 ==> Strip(s) == s by {
      if AllDigits(s) && |s| > 0 { DigitsStripToThemselves(s); }
    }
    ParseSigned(Strip(s))
  }

  /** `int` on text already stripped of whitespace. */
  function ParseSigned(t: string): (r: Option<int>)
    ensures r.Some? <==> |Unsigned(t)| > 0 && AllDigits(Unsigned(t))
    ensures r.Some? ==> |t| > 0 && r.value == if t[0] == '-' then -DigitsValue(Unsigned(t)) else DigitsValue(Unsigned(t))
    ensures AllDigits(t) && |t| > 0 ==> r == Some(DigitsValue(t))
  {
    if |t| > 0 && (t[0] == '-' || t[0] == '+') && |t| > 1 && AllDigits(t[1..]) then
      Some(if t[0] == '-' then -DigitsValue(t[1..]) else DigitsValue(t[1..]))
    else if |t| > 0 && AllDigits(t) then Some(DigitsValue(t))
    else None
  }

  lemma DigitsStripToThemselves(s: string)
    requires |s| > 0 && AllDigits(s)
    ensures Strip(s) == s
  {
    assert '0' <= s[0] <= '9' && '0' <= s[|s| - 1] <= '9';
    StripUntouched(s);
  }

  /** The digits `str` prints for a natural number read back as that number. */
  lemma {:induction false} DigitsValueOfNat(n: nat)
    ensures DigitsValue(NatToString(n)) == n
  {
    var s := NatToString(n);
    if n >= 10 {
      DigitsValueOfNat(n / 10);
      assert s[..|s| - 1] == NatToString(n / 10);
      DigitCharValue(n % 10);
    } else {
      assert s[..0] == "";
      DigitCharValue(n);
    }
  }

  /** `int(str(n)) == n` for every integer. */
  lemma ParseIntOfIntToString(n: int)
    ensures ParseInt(IntToString(n)) == Some(n)
  {
    var t := IntToString(n);
    var m: nat := if n >= 0 then n else -n;
    var digits := NatToString(m);
    DigitsValueOfNat(m);
    assert Unsigned(t) == digits && (t[0] == '-' <==> n < 0) by {
      if n < 0 {
        assert t[0] == '-' && t[1..] == digits;
      } else {
        assert '0' <= t[0] <= '9';
      }
    }
    assert AllDigits(digits);
    var r := ParseSigned(t);
    assert r == Some(n);
    RenderedIsStripped(n);
    assert ParseInt(t) == r;
  }

  /** A rendered integer has no surrounding whitespace. */
  lemma RenderedIsStripped(n: int)
    ensures Strip(IntToString(n)) == IntToString(n)
  {
    var t := IntToString(n);
    var digits := NatToString(if n >= 0 then n else -n);
    assert '0' <= digits[|digits| - 1] <= '9';
    assert t[|t| - 1] == digits[|digits| - 1];
    assert t[0] == '-' || '0' <= t[0] <= '9';
    StripUntouched(t);
  }

  const Day := 86400

  /** `_time_delta` in seconds: `D` is a day, `<n>m` is n minutes, anything else a day;
      None when the minute count does not parse. */
  function TimeDelta(timeframe: string): (r: Option<int>)
    ensures timeframe == "D" ==> r == Some(Day)
    ensures timeframe != "D" && !EndsWith(timeframe, "m") ==> r == Some(Day)
    ensures timeframe != "D" && EndsWith(timeframe, "m") ==>
      r == (var n := ParseInt(timeframe[..|timeframe| - 1]); if n.Some? then Some(n.value * 60) else None)
  {
    if timeframe == "D" then Some(Day)
    else if EndsWith(timeframe, "m") then
      var n := ParseInt(timeframe[..|timeframe| - 1]);
      if n.Some? then Some(n.value * 60) else None
    else Some(Day)
  }

  lemma TimeDeltaExamples()
    ensures TimeDelta("D") == Some(Day)
    ensures TimeDelta("5m") == Some(300)
    ensures TimeDelta("1h") == Some(Day)
    ensures TimeDelta("m") == None
  {
    assert "5m"[..1] == "5";
    assert Strip("5") == "5" by { StripUntouched("5"); }
    assert DigitsValue("5") == 5 by { assert "5"[..0] == ""; }
    assert "m"[..0] == "";
  }

  /** The draws the generator takes from its seeded RNG for one candle:
      `uniform(-0.02, 0.02)`, `uniform(-0.015, 0.02)`, two `uniform(0, 0.01)` and a `random()`. */
  datatype Draw = Draw(drift: real, body: real, upper: real, lower: real, volume: real)

  predicate InRange(d: Draw) {
    -0.02 <= d.drift <= 0.02 && -0.015 <= d.body <= 0.02
    && 0.0 <= d.upper <= 0.01 && 0.0 <= d.lower <= 0.01 && 0.0 <= d.volume < 1.0
  }

  function Max(a: real, b: real): real { if a >= b then a else b }
  function Min(a: real, b: real): real { if a <= b then a else b }

  /** Both prices at least 1000, the low under both and the high over both, and the
      volume in its range. */
  predicate WellShaped(c: Candle) {
    c.open >= 1000.0 && c.close >= 1000.0 && 0.0 <= c.low <= Min(c.open, c.close)
    && Max(c.open, c.close) <= c.high && 1000000.0 <= c.volume < 1500000.0
  }

  /** One bar from the previous close. */
  function NextCandle(symbol: string, ts: int, price: real, d: Draw): (c: Candle)
    ensures c.open >= 1000.0 && c.close >= 1000.0
    ensures d.upper >= 0.0 ==> c.high >= Max(c.open, c.close)
    ensures 0.0 <= d.lower <= 1.0 ==> 0.0 <= c.low <= Min(c.open, c.close)
    ensures 0.0 <= d.volume < 1.0 ==> 1000000.0 <= c.volume < 1500000.0
    ensures c.symbol == symbol && c.timestamp == ts
  {
    var open := Max(price * (1.0 + d.drift / 2.0), 1000.0);
    var close := Max(open * (1.0 + d.body), 1000.0);
    var hi := Max(open, close);
    var lo := Min(open, close);
    assert d.upper >= 0.0 ==> hi * (1.0 + d.upper) >= hi by {
      if d.upper >= 0.0 { assert hi * d.upper >= 0.0; }
    }
    assert 0.0 <= d.lower <= 1.0 ==> 0.0 <= lo * (1.0 - d.lower) <= lo by {
      if 0.0 <= d.lower <= 1.0 { assert lo * d.lower >= 0.0; assert lo * (1.0 - d.lower) >= 0.0; }
    }
    Candle(symbol, ts, open, hi * (1.0 + d.upper), lo * (1.0 - d.lower), close, 1000000.0 + d.volume * 500000.0)
  }

  /** The timestamp of bar `j` of `limit`, the last one a step before `now`. */
  function Stamp(now: int, delta: int, limit: int, j: int): int {
    now - delta * (limit - j)
  }

  lemma StampIncreasing(now: int, delta: int, limit: int, j: int, k: int)
    requires delta > 0 && j < k
    ensures Stamp(now, delta, limit, j) < Stamp(now, delta, limit, k)
  {
    assert delta * (limit - j) - delta * (limit - k) == delta * (k - j);
  }

  /** Bars `i .. limit-1`, the first opening from `price`. */
  function Generate(symbol: string, now: int, delta: int, limit: int, i: nat, price: real, draw: nat -> Draw): (r: seq<Candle>)
    ensures |r| == if i < limit then limit - i else 0
    ensures forall k :: 0 <= k < |r| ==> r[k].timestamp == Stamp(now, delta, limit, i + k) && r[k].symbol == symbol
    ensures forall k :: 0 <= k < |r| ==> r[k] == NextCandle(symbol, r[k].timestamp, if k == 0 then price else r[k - 1].close, draw(i + k))
    ensures forall k :: 0 <= k < |r| && InRange(draw(i + k)) ==> WellShaped(r[k])
    decreases limit - i
  {
    if i >= limit then []
    else
      var c := NextCandle(symbol, Stamp(now, delta, limit, i), price, draw(i));
      [c] + Generate(symbol, now, delta, limit, i + 1, c.close, draw)
  }

  /** `get_candles`; `seedDraw` is the first `random()` and `draw(i)` the draws for bar i,
      both fixed by the seed, symbol and timeframe. None when the timeframe does not parse. */
  function GetCandles(symbol: string, timeframe: string, limit: int, now: int, seedDraw: real, draw: nat -> Draw): (r: Option<seq<Candle>>)
    ensures r.None? <==> TimeDelta(timeframe).None?
    ensures r.Some? ==> |r.value| == if limit > 0 then limit else 0
    ensures r.Some? ==> forall k :: 0 <= k < |r.value| ==> (r.value[k].symbol == symbol
      && r.value[k].timestamp == Stamp(now, TimeDelta(timeframe).value, limit, k))
    ensures r.Some? ==> forall k :: 0 <= k < |r.value| ==>
      r.value[k] == NextCandle(symbol, r.value[k].timestamp, if k == 0 then 50000.0 + seedDraw * 20000.0 else r.value[k - 1].close, draw(k))
  {
    var delta := TimeDelta(timeframe);
    if delta.None? then None
    else Some(Generate(symbol, now, delta.value, limit, 0, 50000.0 + seedDraw * 20000.0, draw))
  }

  /** With a positive step the bars are in strictly increasing time order. */
  lemma TimestampsIncrease(symbol: string, timeframe: string, limit: int, now: int, seedDraw: real, draw: nat -> Draw, j: nat, k: nat)
    requires TimeDelta(timeframe).Some? && TimeDelta(timeframe).value > 0
    requires j < k < |GetCandles(symbol, timeframe, limit, now, seedDraw, draw).value|
    ensures GetCandles(symbol, timeframe, limit, now, seedDraw, draw).value[j].timestamp
      < GetCandles(symbol, timeframe, limit, now, seedDraw, draw).value[k].timestamp
  {
    StampIncreasing(now, TimeDelta(timeframe).value, limit, j, k);
  }

  /** With draws in their ranges every bar is well shaped: both prices at least 1000,
      the low under both and the high over both. */
  lemma CandlesWellShaped(symbol: string, timeframe: string, limit: int, now: int, seedDraw: real, draw: nat -> Draw, k: nat)
    requires forall i: nat :: InRange(draw(i))
    requires GetCandles(symbol, timeframe, limit, now, seedDraw, draw).Some?
    requires k < |GetCandles(symbol, timeframe, limit, now, seedDraw, draw).value|
    ensures var c := GetCandles(symbol, timeframe, limit, now, seedDraw, draw).value[k];
      c.open >= 1000.0 && c.close >= 1000.0 && 0.0 <= c.low <= Min(c.open, c.close)
      && Max(c.open, c.close) <= c.high && 1000000.0 <= c.volume < 1500000.0
  {
    var bars := Generate(symbol, now, TimeDelta(timeframe).value, limit, 0, 50000.0 + seedDraw * 20000.0, draw);
    assert GetCandles(symbol, timeframe, limit, now, seedDraw, draw).value == bars;
    assert InRange(draw(0 + k));
    assert WellShaped(bars[k]);
  }

  /** Prices depend only on the seed, symbol and timeframe: the clock moves the
      timestamps and nothing else. */
  lemma {:induction false} PricesIgnoreClock(symbol: string, now1: int, now2: int, delta: int, limit: int, i: nat, price: real, draw: nat -> Draw, k: nat)
    requires k < |Generate(symbol, now1, delta, limit, i, price, draw)|
    ensures var a := Generate(symbol, now1, delta, limit, i, price, draw)[k];
      var b := Generate(symbol, now2, delta, limit, i, price, draw)[k];
      a.(timestamp := 0) == b.(timestamp := 0)
    decreases limit - i
  {
    var a := Generate(symbol, now1, delta, limit, i, price, draw);
    var c := NextCandle(symbol, now1 - delta * (limit - i), price, draw(i));
    var c2 := NextCandle(symbol, now2 - delta * (limit - i), price, draw(i));
    assert c.close == c2.close;
    if k > 0 {
      PricesIgnoreClock(symbol, now1, now2, delta, limit, i + 1, c.close, draw, k - 1);
    }
  }
}
