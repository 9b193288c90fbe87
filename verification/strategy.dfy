/** The v5 scoring strategy (core/strategy_v5.py): a linear score from the last
    two candles and the latest bar's volume rank over the trailing 20 bars, and
    the top-N pick over all scored symbols. */
module Strategy {
  import opened Wrappers
  import opened Text
  import opened Entities
  import StableSort
  import Symbols

  /** The three weights of `StrategySettings`, defaults 1.0, 1.0 and 0.5. */
  datatype StrategySettings = StrategySettings(returnThreshold: real, intensity: real, volumeRank: real)

  const DefaultSettings := StrategySettings(1.0, 1.0, 0.5)

  /** `score_symbol`'s result. */
  datatype Scored = Scored(score: real, reasons: seq<string>)

  const InsufficientData := "데이터 부족"

  // --------------------------------------------------------- volume rank

  function Id(x: real): real { x }

  /** How many entries of `vs` are strictly below `x`. */
  function CountLess(vs: seq<real>, x: real): (n: nat)
    ensures n <= |vs|
    ensures x in vs ==> n < |vs|
  {
    if |vs| == 0 then 0 else (if vs[0] < x then 1 else 0) + CountLess(vs[1..], x)
  }

  /** `list.index`: the position of the first occurrence. */
  function IndexOf(s: seq<real>, x: real): (i: nat)
    requires x in s
    ensures i < |s| && s[i] == x
    ensures forall j :: 0 <= j < i ==> s[j] != x
  {
    if s[0] == x then 0 else 1 + IndexOf(s[1..], x)
  }

  lemma {:induction false} CountLessInsert(y: real, t: seq<real>, x: real)
    ensures CountLess(StableSort.Insert(y, t, Id), x) == (if y < x then 1 else 0) + CountLess(t, x)
  {
    if |t| == 0 || Id(y) <= Id(t[0]) {
      assert ([y] + t)[1..] == t;
    } else {
      CountLessInsert(y, t[1..], x);
      assert ([t[0]] + StableSort.Insert(y, t[1..], Id))[1..] == StableSort.Insert(y, t[1..], Id);
    }
  }

  lemma {:induction false} CountLessSort(vs: seq<real>, x: real)
    ensures CountLess(StableSort.SortBy(vs, Id), x) == CountLess(vs, x)
  {
    if |vs| > 0 {
      CountLessSort(vs[1..], x);
      CountLessInsert(vs[0], StableSort.SortBy(vs[1..], Id), x);
    }
  }

  lemma {:induction false} IndexInSorted(s: seq<real>, x: real)
    requires x in s && StableSort.SortedBy(s, Id)
    ensures IndexOf(s, x) == CountLess(s, x)
  {
    if s[0] == x {
      CountLessNone(s[1..], x);
    } else {
      var j :| 0 <= j < |s| && s[j] == x;
      assert Id(s[0]) <= Id(s[j]);
      assert x in s[1..] by { assert s[1..][j - 1] == x; }
      IndexInSorted(s[1..], x);
    }
  }

  lemma {:induction false} CountLessNone(s: seq<real>, x: real)
    requires forall i :: 0 <= i < |s| ==> x <= s[i]
    ensures CountLess(s, x) == 0
  {
    if |s| > 0 {
      CountLessNone(s[1..], x);
    }
  }

  /** The volumes of the trailing 20 bars (`candles[-20:]`). */
  function RecentVolumes(candles: seq<Candle>): (vs: seq<real>)
    ensures |vs| == if |candles| < 20 then |candles| else 20
    ensures forall i :: 0 <= i < |vs| ==> vs[i] == candles[|candles| - |vs| + i].volume
  {
    var recent := PyLast(candles, 20);
    seq(|recent|, i requires 0 <= i < |recent| => recent[i].volume)
  }

  lemma RatioInUnit(a: nat, n: nat)
    requires 0 < a <= n
    ensures 0.0 < a as real / n as real <= 1.0
  {
  }

  /** `sorted(vs).index(x)`: where `x` first appears once `vs` is sorted. */
  function SortedIndex(vs: seq<real>, x: real): (i: nat)
    requires x in vs
    ensures i < |vs|
  {
    var sorted := StableSort.SortBy(vs, Id);
    assert x in multiset(sorted);
    IndexOf(sorted, x)
  }

  /** The sorted position is the number of entries strictly below `x`. */
  lemma SortedIndexCountsSmaller(vs: seq<real>, x: real)
    requires x in vs
    ensures SortedIndex(vs, x) == CountLess(vs, x)
  {
    var sorted := StableSort.SortBy(vs, Id);
    assert x in multiset(sorted);
    StableSort.SortBySorted(vs, Id);
    IndexInSorted(sorted, x);
    CountLessSort(vs, x);
  }

  /** The 1-based rank `pos + 1` as a fraction of `n`. */
  function RankRatio(pos: nat, n: nat): (r: real)
    requires pos < n
    ensures 0.0 < r <= 1.0
  {
    RatioInUnit(pos + 1, n);
    (pos + 1) as real / n as real
  }

  /** `(sorted(volumes).index(latest.volume) + 1) / len(volumes)`. */
  function VolumeRank(candles: seq<Candle>): (r: real)
    requires |candles| >= 1
    ensures 0.0 < r <= 1.0
  {
    var vs := RecentVolumes(candles);
    var latest := candles[|candles| - 1].volume;
    assert vs[|vs| - 1] == latest;
    RankRatio(SortedIndex(vs, latest), |vs|)
  }

  /** The rank position is the number of trailing volumes strictly below the latest one. */
  lemma VolumeRankCountsSmaller(candles: seq<Candle>)
    requires |candles| >= 1
    ensures candles[|candles| - 1].volume in RecentVolumes(candles)
    ensures VolumeRank(candles)
      == RankRatio(CountLess(RecentVolumes(candles), candles[|candles| - 1].volume), |RecentVolumes(candles)|)
  {
    var vs := RecentVolumes(candles);
    var latest := candles[|candles| - 1].volume;
    assert vs[|vs| - 1] == latest;
    SortedIndexCountsSmaller(vs, latest);
  }

  // ------------------------------------------------------------- score

  /** Close-to-close change of the latest bar, in percent; 0 when the previous close is 0. */
  function MomentumPct(latest: Candle, prev: Candle): (m: real)
    ensures prev.close == 0.0 ==> m == 0.0
    ensures prev.close != 0.0 ==> prev.close * (1.0 + m / 100.0) == latest.close
  {
    if prev.close != 0.0 then ((latest.close - prev.close) / prev.close) * 100.0 else 0.0
  }

  /** Body over range; 0 for a bar with no range. */
  function Intensity(c: Candle): (r: real)
    ensures RangeSize(c) == 0.0 ==> r == 0.0
    ensures WellFormed(c) ==> 0.0 <= r <= 1.0
  {
    if RangeSize(c) != 0.0 then
      var r := BodySize(c) / RangeSize(c);
      assert WellFormed(c) ==> 0.0 <= r <= 1.0 by {
        if WellFormed(c) {
          BodyWithinRange(c);
          DivAtMostOne(BodySize(c), RangeSize(c));
        }
      }
      r
    else 0.0
  }

  lemma DivAtMostOne(a: real, b: real)
    requires 0.0 <= a <= b && b != 0.0
    ensures 0.0 <= a / b <= 1.0
  {
  }

  /** The weighted linear combination `score_symbol` returns. */
  function Combine(w: StrategySettings, changePct: real, momentumPct: real, volumeRank: real, intensity: real): real {
    changePct * w.returnThreshold + momentumPct * w.intensity + volumeRank * w.volumeRank * 100.0 + intensity * 10.0
  }

  /** Four reasons, led in turn by the change, momentum, volume-rank and body/range labels. */
  predicate Labelled(reasons: seq<string>) {
    && |reasons| == 4
    && StartsWith(reasons[0], "일간 변동 ") && StartsWith(reasons[1], "모멘텀 ")
    && StartsWith(reasons[2], "거래량 랭크 ") && StartsWith(reasons[3], "바디/레인지 ")
  }

  /** The four reasons `score_symbol` attaches, each led by its Korean label. */
  function Reasons(changePct: real, momentum: real, rank: real, intensity: real, fmt: real -> string): (r: seq<string>)
    ensures Labelled(r)
  {
    StartsWithConcat("일간 변동 ", fmt(changePct) + "%");
    StartsWithConcat("모멘텀 ", fmt(momentum) + "%");
    StartsWithConcat("거래량 랭크 ", fmt(rank));
    StartsWithConcat("바디/레인지 ", fmt(intensity));
    [ "일간 변동 " + (fmt(changePct) + "%"),
      "모멘텀 " + (fmt(momentum) + "%"),
      "거래량 랭크 " + fmt(rank),
      "바디/레인지 " + fmt(intensity)]
  }

  /** `score_symbol`; `fmt` stands for the two-decimal rendering in the reasons. */
  function ScoreSymbol(w: StrategySettings, candles: seq<Candle>, fmt: real -> string): (r: Scored)
    ensures |candles| < 2 ==> r == Scored(0.0, [InsufficientData])
    ensures |candles| >= 2 ==> |r.reasons| == 4
    ensures |candles| >= 2 ==>
      var latest := candles[|candles| - 1];
      var prev := candles[|candles| - 2];
      && r.score == Combine(w, ChangeRatio(latest) * 100.0, MomentumPct(latest, prev), VolumeRank(candles), Intensity(latest))
      && Labelled(r.reasons)
  {
    if |candles| < 2 then Scored(0.0, [InsufficientData])
    else ScoreLatest(w, candles[|candles| - 1], candles[|candles| - 2], VolumeRank(candles), fmt)
  }

  /** The scoring from the last two bars of a series and the latest bar's volume rank. */
  function ScoreLatest(w: StrategySettings, latest: Candle, prev: Candle, rank: real, fmt: real -> string): (r: Scored)
    ensures r.score == Combine(w, ChangeRatio(latest) * 100.0, MomentumPct(latest, prev), rank, Intensity(latest))
    ensures Labelled(r.reasons)
  {
    ScoreFrom(w, ChangeRatio(latest) * 100.0, MomentumPct(latest, prev), rank, Intensity(latest), fmt)
  }

  /** The score and reasons for given feature values. */
  function ScoreFrom(w: StrategySettings, changePct: real, momentum: real, rank: real, intensity: real, fmt: real -> string): (r: Scored)
    ensures r.score == Combine(w, changePct, momentum, rank, intensity)
    ensures Labelled(r.reasons)
  {
    Scored(Combine(w, changePct, momentum, rank, intensity), Reasons(changePct, momentum, rank, intensity, fmt))
  }

  lemma CombineWithoutPriceWeights(w: StrategySettings, c: real, m: real, rank: real, intensity: real)
    requires w.returnThreshold == 0.0 && w.intensity == 0.0 && w.volumeRank >= 0.0
    requires 0.0 < rank <= 1.0 && 0.0 <= intensity <= 1.0
    ensures 0.0 <= Combine(w, c, m, rank, intensity) <= w.volumeRank * 100.0 + 10.0
  {
    MulAtMost(rank, w.volumeRank * 100.0);
    assert Combine(w, c, m, rank, intensity) == rank * (w.volumeRank * 100.0) + intensity * 10.0;
  }

  /** With the momentum and return weights off, a well-formed latest bar scores
      between 0 and `volume_rank * 100 + 10`: only volume rank and intensity count. */
  lemma ScoreBoundsWithoutPriceWeights(w: StrategySettings, candles: seq<Candle>, fmt: real -> string)
    requires |candles| >= 2 && WellFormed(candles[|candles| - 1])
    requires w.returnThreshold == 0.0 && w.intensity == 0.0 && w.volumeRank >= 0.0
    ensures 0.0 <= ScoreSymbol(w, candles, fmt).score <= w.volumeRank * 100.0 + 10.0
  {
    var latest := candles[|candles| - 1];
    CombineWithoutPriceWeights(w, ChangeRatio(latest) * 100.0, MomentumPct(latest, candles[|candles| - 2]), VolumeRank(candles), Intensity(latest));
  }

  lemma MulAtMost(a: real, b: real)
    requires 0.0 < a <= 1.0 && b >= 0.0
    ensures 0.0 <= a * b <= b
  {
  }

  // ------------------------------------------------------------- top picks

  /** Every symbol scored once, in input order, named through the symbol table. */
  function ScoreAll(w: StrategySettings, candlesBySymbol: seq<(string, seq<Candle>)>, names: map<string, string>, fmt: real -> string): (r: seq<Signal>)
    ensures |r| == |candlesBySymbol|
    ensures forall i :: 0 <= i < |r| ==>
      && r[i].symbol == candlesBySymbol[i].0
      && r[i].score == ScoreSymbol(w, candlesBySymbol[i].1, fmt).score
      && r[i].reasons == ScoreSymbol(w, candlesBySymbol[i].1, fmt).reasons
      && r[i].name == Some(Symbols.GetName(candlesBySymbol[i].0, names))
  {
    seq(|candlesBySymbol|, i requires 0 <= i < |candlesBySymbol| =>
      var sc := ScoreSymbol(w, candlesBySymbol[i].1, fmt);
      Signal(candlesBySymbol[i].0, sc.score, sc.reasons, Some(Symbols.GetName(candlesBySymbol[i].0, names))))
  }

  /** `pick_top_signals`: the top `topN` of all scored symbols. */
  function PickTopSignals(w: StrategySettings, candlesBySymbol: seq<(string, seq<Candle>)>, topN: int, names: map<string, string>, fmt: real -> string): (r: seq<Signal>)
    ensures topN >= 0 ==> |r| == if topN < |candlesBySymbol| then topN else |candlesBySymbol|
    ensures multiset(r) <= multiset(ScoreAll(w, candlesBySymbol, names, fmt))
    ensures forall i, j :: 0 <= i < j < |r| ==> r[i].score >= r[j].score
  {
    TopNSignals(ScoreAll(w, candlesBySymbol, names, fmt), topN)
  }

  /** Each picked signal carries the score of its own symbol's candles. */
  lemma PickedScoresAreOwnScores(w: StrategySettings, candlesBySymbol: seq<(string, seq<Candle>)>, topN: int, names: map<string, string>, fmt: real -> string, s: Signal)
    requires s in PickTopSignals(w, candlesBySymbol, topN, names, fmt)
    ensures exists i :: 0 <= i < |candlesBySymbol| && candlesBySymbol[i].0 == s.symbol && s == ScoreAll(w, candlesBySymbol, names, fmt)[i]
  {
    var all := ScoreAll(w, candlesBySymbol, names, fmt);
    TopNFromInput(all, topN, s);
    var i :| 0 <= i < |all| && all[i] == s;
    assert candlesBySymbol[i].0 == s.symbol;
  }
}
