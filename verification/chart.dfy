/** The indicator overlays of the desktop chart page (app_desktop/src/pages/Chart.tsx):
    simple moving averages of the closes and a 14-period RSI. Chart drawing is not modelled. */
module Chart {
  import opened Text

  /** A candle as the chart receives it: an ISO timestamp string and the close. */
  datatype Point = Point(timestamp: string, close: real)

  /** One point of a line overlay. */
  datatype LinePoint = LinePoint(time: string, value: real)

  /** `timestamp.substring(0, 10)`: the date part of an ISO timestamp. */
  function Day(timestamp: string): (r: string)
    ensures |r| == (if |timestamp| < 10 then |timestamp| else 10) && r == timestamp[..|r|]
  {
    PyTake(timestamp, 10)
  }

  /** The closes of `w` summed left to right. */
  function SumCloses(w: seq<Point>): real
    decreases |w|
  {
    if |w| == 0 then 0.0 else SumCloses(w[..|w| - 1]) + w[|w| - 1].close
  }

  /** The mean close of the `len` candles ending at index `i`. */
  function WindowMean(candles: seq<Point>, i: nat, len: nat): real
    requires 1 <= len <= i + 1 <= |candles|
  {
    SumCloses(candles[i + 1 - len..i + 1]) / len as real
  }

  /** `computeSMA(len)`: one point for every candle with `len` candles up to it. */
  method ComputeSMA(candles: seq<Point>, len: nat) returns (result: seq<LinePoint>)
    requires len >= 1
    ensures |result| == if |candles| >= len then |candles| - len + 1 else 0
    ensures forall k :: 0 <= k < |result| ==>
      result[k] == LinePoint(Day(candles[k + len - 1].timestamp), WindowMean(candles, k + len - 1, len))
  {
    result := [];
    var i := 0;
    while i < |candles|
      invariant 0 <= i <= |candles|
      invariant |result| == if i >= len then i - len + 1 else 0
      invariant forall k :: 0 <= k < |result| ==> result[k] == SmaPoint(candles, k + len - 1, len)
    {
      if i + 1 >= len {
        var point := SmaPoint(candles, i, len);
        SmaAppend(candles, len, result, point);
        result := result + [point];
      }
      i := i + 1;
    }
  }

  /** Appending the point of the next full window keeps every point at its window. */
  lemma SmaAppend(candles: seq<Point>, len: nat, result: seq<LinePoint>, point: LinePoint)
    requires len >= 1 && |result| + len <= |candles|
    requires forall k :: 0 <= k < |result| ==> result[k] == SmaPoint(candles, k + len - 1, len)
    requires point == SmaPoint(candles, |result| + len - 1, len)
    ensures forall k :: 0 <= k < |result| + 1 ==> (result + [point])[k] == SmaPoint(candles, k + len - 1, len)
  {
  }

  /** The overlay point at candle `i`: its date and the mean of the window ending there. */
  function SmaPoint(candles: seq<Point>, i: nat, len: nat): LinePoint
    requires 1 <= len <= i + 1 <= |candles|
  {
    LinePoint(Day(candles[i].timestamp), WindowMean(candles, i, len))
  }

  lemma {:induction false} SumBounds(w: seq<Point>, lo: real, hi: real)
    requires forall j :: 0 <= j < |w| ==> lo <= w[j].close <= hi
    ensures lo * |w| as real <= SumCloses(w) <= hi * |w| as real
    decreases |w|
  {
    if |w| > 0 {
      SumBounds(w[..|w| - 1], lo, hi);
    }
  }

  /** Every moving-average value lies between the lowest and highest close of its
      window; in particular a flat series averages to its own level. */
  lemma WindowMeanBounded(candles: seq<Point>, i: nat, len: nat, lo: real, hi: real)
    requires 1 <= len <= i + 1 <= |candles|
    requires forall j :: i + 1 - len <= j <= i ==> lo <= candles[j].close <= hi
    ensures lo <= WindowMean(candles, i, len) <= hi
  {
    var w := candles[i + 1 - len..i + 1];
    SliceBounded(candles, i + 1 - len, i + 1, lo, hi);
    SumBounds(w, lo, hi);
    DivBounds(SumCloses(w), len as real, lo, hi);
  }

  /** A slice of candles whose closes all lie in `[lo, hi]` has all its closes there. */
  lemma SliceBounded(candles: seq<Point>, from: nat, to: nat, lo: real, hi: real)
    requires from <= to <= |candles|
    requires forall j :: from <= j < to ==> lo <= candles[j].close <= hi
    ensures forall j :: 0 <= j < to - from ==> lo <= candles[from..to][j].close <= hi
  {
    forall j | 0 <= j < to - from ensures lo <= candles[from..to][j].close <= hi {
      assert candles[from..to][j] == candles[from + j];
    }
  }

  lemma DivBounds(s: real, n: real, lo: real, hi: real)
    requires n > 0.0 && lo * n <= s <= hi * n
    ensures lo <= s / n <= hi
  {
    assert s / n * n == s;
  }

  // ------------------------------------------------------------------ RSI

  const RsiPeriod := 14

  /** The running gain and loss figures of the RSI loop. */
  datatype Averages = Averages(gains: real, losses: real)

  function Change(candles: seq<Point>, i: nat): real
    requires 1 <= i < |candles|
  {
    candles[i].close - candles[i - 1].close
  }

  /** One iteration: up to index 14 the change is added to a running total, after it
      the figures are smoothed with weight 13/14. */
  function RsiStep(a: Averages, i: nat, change: real): Averages {
    if i <= RsiPeriod then
      (if change >= 0.0 then Averages(a.gains + change, a.losses) else Averages(a.gains, a.losses - change))
    else if change >= 0.0 then
      Averages((a.gains * 13.0 + change) / 14.0, a.losses * 13.0 / 14.0)
    else
      Averages(a.gains * 13.0 / 14.0, (a.losses * 13.0 - change) / 14.0)
  }

  /** The figures after the loop has handled indices 1..i, as the page computes them. */
  function RsiRun(candles: seq<Point>, i: nat): (r: Averages)
    requires i < |candles|
    ensures r.gains >= 0.0 && r.losses >= 0.0
  {
    if i == 0 then Averages(0.0, 0.0) else RsiStep(RsiRun(candles, i - 1), i, Change(candles, i))
  }

  /** `100 - 100 / (1 + rs)`, where no losses at all count as `rs = 100`. */
  function Rsi(a: Averages): (r: real)
    requires a.gains >= 0.0 && a.losses >= 0.0
    ensures 0.0 <= r < 100.0
    ensures a.losses == 0.0 ==> r == 100.0 - 100.0 / 101.0
  {
    var rs := if a.losses == 0.0 then 100.0 else a.gains / a.losses;
    assert 100.0 / (1.0 + rs) <= 100.0;
    100.0 - 100.0 / (1.0 + rs)
  }

  /** With losses, the RSI is the gains' share of all movement, in percent:
      `rsi * (gains + losses) == 100 * gains`. */
  lemma RsiIsGainShare(a: Averages)
    requires a.gains >= 0.0 && a.losses > 0.0
    ensures Rsi(a) * (a.gains + a.losses) == 100.0 * a.gains
  {
    var rs := a.gains / a.losses;
    var d := 1.0 + rs;
    assert rs * a.losses == a.gains;
    assert d * a.losses == a.losses + a.gains;
    assert 100.0 / d * d == 100.0;
    assert 100.0 / d * (a.gains + a.losses) == 100.0 / d * d * a.losses;
  }

  /** The RSI loop: one value for every index from 15 on, each in [0, 100). */
  method ComputeRSI(candles: seq<Point>) returns (values: seq<LinePoint>)
    ensures |values| == if |candles| > RsiPeriod + 1 then |candles| - (RsiPeriod + 1) else 0
    ensures forall k :: 0 <= k < |values| ==>
      values[k] == LinePoint(Day(candles[k + RsiPeriod + 1].timestamp), Rsi(RsiRun(candles, k + RsiPeriod + 1)))
    ensures forall k :: 0 <= k < |values| ==> 0.0 <= values[k].value < 100.0
  {
    values := [];
    if |candles| == 0 {
      return;
    }
    var gains := 0.0;
    var losses := 0.0;
    var i := 1;
    while i < |candles|
      invariant 1 <= i <= |candles|
      invariant Averages(gains, losses) == RsiRun(candles, i - 1)
      invariant |values| == if i > RsiPeriod + 1 then i - (RsiPeriod + 1) else 0
      invariant forall k :: 0 <= k < |values| ==>
        values[k] == LinePoint(Day(candles[k + RsiPeriod + 1].timestamp), Rsi(RsiRun(candles, k + RsiPeriod + 1)))
    {
      var change := candles[i].close - candles[i - 1].close;
      gains, losses := Accumulate(gains, losses, i, change);
      if i > RsiPeriod {
        var value := RsiValue(gains, losses);
        values := values + [LinePoint(Day(candles[i].timestamp), value)];
      }
      i := i + 1;
    }
  }

  /** The loop body's update of the running figures. */
  method Accumulate(gains: real, losses: real, i: nat, change: real) returns (g: real, l: real)
    ensures Averages(g, l) == RsiStep(Averages(gains, losses), i, change)
  {
    g, l := gains, losses;
    if i <= RsiPeriod {
      if change >= 0.0 {
        g := gains + change;
      } else {
        l := losses - change;
      }
    } else {
      if change >= 0.0 {
        g := (gains * 13.0 + change) / 14.0;
        l := (losses * 13.0) / 14.0;
      } else {
        g := (gains * 13.0) / 14.0;
        l := (losses * 13.0 - change) / 14.0;
      }
    }
  }

  /** The loop body's RSI value from the running figures. */
  method RsiValue(gains: real, losses: real) returns (v: real)
    requires gains >= 0.0 && losses >= 0.0
    ensures v == Rsi(Averages(gains, losses))
  {
    var rs := if losses == 0.0 then 100.0 else gains / losses;
    v := 100.0 - 100.0 / (1.0 + rs);
  }

  /** A series that never falls has no losses, so its RSI sits at 100 - 100/101 rather than 100. */
  lemma {:induction false} NeverFallingHasNoLosses(candles: seq<Point>, i: nat)
    requires i < |candles|
    requires forall j :: 1 <= j <= i ==> candles[j - 1].close <= candles[j].close
    ensures RsiRun(candles, i).losses == 0.0
    ensures Rsi(RsiRun(candles, i)) == 100.0 - 100.0 / 101.0
  {
    if i > 0 {
      NeverFallingHasNoLosses(candles, i - 1);
    }
  }

  // ------------------------------------------------------------------ seeding

  /** Wilder's RSI: the first 14 changes are averaged (not summed) before smoothing. */
  function WilderRun(candles: seq<Point>, i: nat): (r: Averages)
    requires i < |candles|
  {
    if i < RsiPeriod then RsiRun(candles, i)
    else if i == RsiPeriod then Averages(RsiRun(candles, i).gains / 14.0, RsiRun(candles, i).losses / 14.0)
    else RsiStep(WilderRun(candles, i - 1), i, Change(candles, i))
  }

  predicate ChangesWithin(candles: seq<Point>, i: nat, bound: real)
    requires i < |candles|
  {
    forall j :: 1 <= j <= i ==> -bound <= Change(candles, j) <= bound
  }

  lemma ChangesWithinPrefix(candles: seq<Point>, i: nat, bound: real)
    requires 0 < i < |candles| && ChangesWithin(candles, i, bound)
    ensures ChangesWithin(candles, i - 1, bound) && -bound <= Change(candles, i) <= bound
  {
  }

  lemma SeedStepWithin(a: Averages, i: nat, c: real, prev: real, bound: real)
    requires i <= RsiPeriod && a.gains <= prev && a.losses <= prev && -bound <= c <= bound
    ensures RsiStep(a, i, c).gains <= prev + bound && RsiStep(a, i, c).losses <= prev + bound
  {
  }

  /** `k` copies of `b` added up. */
  function Times(k: nat, b: real): real {
    if k == 0 then 0.0 else Times(k - 1, b) + b
  }

  /** The seed bound is built up by repeated addition in `SeedWithin`; the Wilder
      seed divides it by the period, which needs it as a product. */
  lemma {:induction false} TimesIsProduct(k: nat, b: real)
    ensures Times(k, b) == k as real * b
  {
    if k > 0 {
      TimesIsProduct(k - 1, b);
    }
  }

  lemma {:induction false} SeedWithin(candles: seq<Point>, i: nat, bound: real)
    requires i < |candles| && i <= RsiPeriod && ChangesWithin(candles, i, bound)
    ensures RsiRun(candles, i).gains <= Times(i, bound) && RsiRun(candles, i).losses <= Times(i, bound)
  {
    if i > 0 {
      ChangesWithinPrefix(candles, i, bound);
      SeedWithin(candles, i - 1, bound);
      SeedStepWithin(RsiRun(candles, i - 1), i, Change(candles, i), Times(i - 1, bound), bound);
    }
  }

  /** With averaged seeding, the smoothed gains and losses are averages: when no change
      exceeds `bound` in size, neither figure does. */
  lemma {:induction false} WilderAveragesBounded(candles: seq<Point>, i: nat, bound: real)
    requires RsiPeriod <= i < |candles| && ChangesWithin(candles, i, bound)
    ensures WilderRun(candles, i).gains <= bound && WilderRun(candles, i).losses <= bound
  {
    if i == RsiPeriod {
      SeedWithin(candles, i, bound);
      TimesIsProduct(14, bound);
    } else {
      WilderAveragesBounded(candles, i - 1, bound);
      var a := WilderRun(candles, i - 1);
      var c := Change(candles, i);
      assert a.gains * 13.0 <= bound * 13.0 && a.losses * 13.0 <= bound * 13.0;
    }
  }

  /** Sixteen closes rising by one each. */
  function Ramp(): (r: seq<Point>)
    ensures |r| == 16
  {
    seq(16, i requires 0 <= i < 16 => Point("", i as real))
  }

  lemma {:induction false} RampSeed(i: nat)
    requires i <= RsiPeriod
    ensures RsiRun(Ramp(), i) == Averages(i as real, 0.0)
  {
    if i > 0 {
      RampSeed(i - 1);
      assert Change(Ramp(), i) == 1.0;
    }
  }

  /** As written, seeding with sums leaves the gain figure at 183/14 after a series
      whose every change is 1, far above any average of those changes. */
  lemma SeedSumsOverstateAverages()
    ensures ChangesWithin(Ramp(), 15, 1.0)
    ensures RsiRun(Ramp(), 15).gains == 183.0 / 14.0 && RsiRun(Ramp(), 15).gains > 1.0
    ensures WilderRun(Ramp(), 15).gains <= 1.0
  {
    forall j | 1 <= j <= 15 ensures -1.0 <= Change(Ramp(), j) <= 1.0 {
      assert Change(Ramp(), j) == 1.0;
    }
    RampSeed(14);
    assert Change(Ramp(), 15) == 1.0;
    WilderAveragesBounded(Ramp(), 15, 1.0);
  }

  /** Sixteen closes alternating 0, 1, 0, 1, …: seven rises and seven falls of one in the
      first fourteen changes, then one more rise. */
  function Zigzag(): (r: seq<Point>)
    ensures |r| == 16
  {
    seq(16, i requires 0 <= i < 16 => Point("", if i % 2 == 0 then 0.0 else 1.0))
  }

  lemma ZigzagCloses(i: nat)
    requires i < 16
    ensures Zigzag()[i].close == if i % 2 == 0 then 0.0 else 1.0
  {
  }

  /** After each rise-and-fall pair the running sums grow by one each. */
  lemma {:induction false} ZigzagPairs(m: nat)
    requires 2 * m <= RsiPeriod
    ensures RsiRun(Zigzag(), 2 * m) == Averages(m as real, m as real)
  {
    if m > 0 {
      ZigzagPairs(m - 1);
      var i := 2 * m - 1;
      ZigzagCloses(i - 1);
      ZigzagCloses(i);
      ZigzagCloses(i + 1);
      assert RsiRun(Zigzag(), i) == Averages(m as real, (m - 1) as real);
    }
  }

  lemma ZigzagSeeded()
    ensures RsiRun(Zigzag(), 15) == Averages(92.0 / 14.0, 91.0 / 14.0)
    ensures WilderRun(Zigzag(), 15) == Averages(7.5 / 14.0, 6.5 / 14.0)
  {
    ZigzagPairs(7);
    ZigzagCloses(14);
    ZigzagCloses(15);
    assert Change(Zigzag(), 15) == 1.0;
    assert WilderRun(Zigzag(), 14) == Averages(0.5, 0.5);
  }

  /** As written, seeding with sums changes the RSI itself once smoothing starts, even on
      a series with losses: after the zigzag the page reports 9200/183 (about 50.3) where
      Wilder's recurrence gives 750/14 (about 53.6). */
  lemma SeedSumsShiftRsi()
    ensures Change(Zigzag(), 2) < 0.0
    ensures RsiRun(Zigzag(), 15) == Averages(92.0 / 14.0, 91.0 / 14.0)
    ensures WilderRun(Zigzag(), 15) == Averages(7.5 / 14.0, 6.5 / 14.0)
    ensures Rsi(RsiRun(Zigzag(), 15)) * 183.0 == 9200.0
    ensures Rsi(WilderRun(Zigzag(), 15)) * 14.0 == 750.0
    ensures Rsi(RsiRun(Zigzag(), 15)) != Rsi(WilderRun(Zigzag(), 15))
  {
    ZigzagCloses(1);
    ZigzagCloses(2);
    ZigzagSeeded();
    SeededRsiValues();
  }

  /** The two RSI figures of the zigzag, from the averages alone. */
  lemma SeededRsiValues()
    ensures Rsi(Averages(92.0 / 14.0, 91.0 / 14.0)) * 183.0 == 9200.0
    ensures Rsi(Averages(7.5 / 14.0, 6.5 / 14.0)) * 14.0 == 750.0
    ensures Rsi(Averages(92.0 / 14.0, 91.0 / 14.0)) != Rsi(Averages(7.5 / 14.0, 6.5 / 14.0))
  {
    GainShareOf(92.0 / 14.0, 91.0 / 14.0, 183.0 / 14.0);
    GainShareOf(7.5 / 14.0, 6.5 / 14.0, 1.0);
  }

  lemma GainShareOf(g: real, l: real, total: real)
    requires g >= 0.0 && l > 0.0 && total == g + l
    ensures Rsi(Averages(g, l)) * total == 100.0 * g
  {
    RsiIsGainShare(Averages(g, l));
  }
}
