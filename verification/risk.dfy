/** The exit-risk evaluator (core/risk.py): a fixed-priority rule chain
    stop_loss > take_profit > trailing > hard_stop that turns one position
    snapshot into at most one exit signal, plus the capacity gate and the
    notification text. */
module Risk {
  import opened Wrappers
  import opened Text
  import opened RealOrder
  import opened Entities

  datatype RiskConfig = RiskConfig(
    stopLossPct: real, takeProfitPct: real, trailingPct: real,
    dailyLossLimitR: real, maxPositions: int)

  /** The configuration `RiskManager` falls back to. */
  const DefaultConfig := RiskConfig(0.07, 0.18, 0.03, -3.0, 3)

  const StopLoss := "stop_loss"
  const TakeProfit := "take_profit"
  const Trailing := "trailing"
  const HardStop := "hard_stop"

  function Abs(x: real): real { if x < 0.0 then -x else x }

  /** `RiskManager.can_open_position`. */
  function CanOpenPosition(cfg: RiskConfig, currentPositions: int): (ok: bool)
    ensures ok <==> currentPositions < cfg.maxPositions
  {
    currentPositions < cfg.maxPositions
  }

  /** Opening capacity only shrinks as positions are added. */
  lemma CapacityMonotone(cfg: RiskConfig, fewer: int, more: int)
    requires fewer <= more && CanOpenPosition(cfg, more)
    ensures CanOpenPosition(cfg, fewer)
  {
  }

  /** `_resolve_pct`: the stored profit ratio when it is nonzero, otherwise the one
      recomputed from the prices, otherwise 0. */
  function ResolvePct(p: Position): (pnl: real)
    ensures p.pnlPct != 0.0 ==> pnl == p.pnlPct
    ensures p.pnlPct == 0.0 && p.avgPrice != 0.0 ==> p.avgPrice * (1.0 + pnl) == p.lastPrice
    ensures p.pnlPct == 0.0 && p.avgPrice == 0.0 ==> pnl == 0.0
  {
    if p.pnlPct != 0.0 then p.pnlPct
    else if p.avgPrice != 0.0 then (p.lastPrice - p.avgPrice) / p.avgPrice
    else 0.0
  }

  predicate StopLossHit(p: Position, cfg: RiskConfig) {
    ResolvePct(p) <= -Abs(cfg.stopLossPct)
  }

  predicate TakeProfitHit(p: Position, cfg: RiskConfig) {
    ResolvePct(p) >= Abs(cfg.takeProfitPct)
  }

  function TrailThreshold(p: Position, cfg: RiskConfig): real {
    p.trailStop * (1.0 - cfg.trailingPct)
  }

  predicate TrailingHit(p: Position, cfg: RiskConfig) {
    p.trailStop != 0.0 && cfg.trailingPct > 0.0 && p.lastPrice <= TrailThreshold(p, cfg)
  }

  predicate HardStopHit(p: Position) {
    p.hardStop != 0.0 && p.lastPrice <= p.hardStop
  }

  /** `evaluate_exit`: the first rule that holds, in priority order, decides. */
  function EvaluateExit(p: Position, cfg: RiskConfig, now: Instant, f: NumberFormat): (r: Option<ExitSignal>)
    ensures r.Some? ==> r.value.symbol == p.symbol && r.value.triggeredAt == now
    ensures r.Some? ==> r.value.signalType in {StopLoss, TakeProfit, Trailing, HardStop}
    ensures r.Some? && r.value.signalType == StopLoss <==> StopLossHit(p, cfg)
    ensures r.Some? && r.value.signalType == TakeProfit <==> !StopLossHit(p, cfg) && TakeProfitHit(p, cfg)
    ensures r.Some? && r.value.signalType == Trailing
      <==> !StopLossHit(p, cfg) && !TakeProfitHit(p, cfg) && TrailingHit(p, cfg)
    ensures r.Some? && r.value.signalType == HardStop
      <==> !StopLossHit(p, cfg) && !TakeProfitHit(p, cfg) && !TrailingHit(p, cfg) && HardStopHit(p)
    ensures r.None? <==> !StopLossHit(p, cfg) && !TakeProfitHit(p, cfg) && !TrailingHit(p, cfg) && !HardStopHit(p)
  {
    var pnl := ResolvePct(p);
    if pnl <= -Abs(cfg.stopLossPct) then
      Some(ExitSignal(p.symbol, StopLoss, "손절 트리거: " + f.fixed2(pnl * 100.0) + "%", now))
    else if pnl >= Abs(cfg.takeProfitPct) then
      Some(ExitSignal(p.symbol, TakeProfit, "익절 트리거: " + f.fixed2(pnl * 100.0) + "%", now))
    else if p.trailStop != 0.0 && cfg.trailingPct > 0.0 && p.lastPrice <= TrailThreshold(p, cfg) then
      Some(ExitSignal(p.symbol, Trailing,
        "트레일링 스탑: 현재 " + f.grouped2(p.lastPrice) + " ≤ 임계 " + f.grouped2(TrailThreshold(p, cfg)), now))
    else if p.hardStop != 0.0 && p.lastPrice <= p.hardStop then
      Some(ExitSignal(p.symbol, HardStop,
        "하드 스탑: 현재 " + f.grouped2(p.lastPrice) + " ≤ " + f.grouped2(p.hardStop), now))
    else
      None
  }

  /** A position that has not set its profit ratio keeps signalling a stop loss
      as its price falls further: the stop-loss rule is monotone in the price. */
  lemma StopLossPersistsAsPriceFalls(p: Position, lower: real, cfg: RiskConfig, now: Instant, f: NumberFormat)
    requires p.pnlPct == 0.0 && p.avgPrice > 0.0
    requires lower <= p.lastPrice
    requires EvaluateExit(p, cfg, now, f).Some? && EvaluateExit(p, cfg, now, f).value.signalType == StopLoss
    ensures EvaluateExit(p.(lastPrice := lower), cfg, now, f).Some?
    ensures EvaluateExit(p.(lastPrice := lower), cfg, now, f).value.signalType == StopLoss
  {
    var q := p.(lastPrice := lower);
    assert (lower - p.avgPrice) / p.avgPrice <= (p.lastPrice - p.avgPrice) / p.avgPrice by {
      DivMonotone(lower - p.avgPrice, p.lastPrice - p.avgPrice, p.avgPrice);
    }
  }

  /** Which rule fires depends only on the position and the configuration, never
      on the clock or the number rendering. */
  lemma DecisionIgnoresClockAndFormat(p: Position, cfg: RiskConfig, now1: Instant, now2: Instant, f1: NumberFormat, f2: NumberFormat)
    ensures EvaluateExit(p, cfg, now1, f1).Some? == EvaluateExit(p, cfg, now2, f2).Some?
    ensures EvaluateExit(p, cfg, now1, f1).Some? ==>
      EvaluateExit(p, cfg, now1, f1).value.signalType == EvaluateExit(p, cfg, now2, f2).value.signalType
  {
  }

  function TestPosition(avg: real, last: real): Position {
    Position("AAA", 10, avg, last, 0.0, 0.0, 0.0, 0.0)
  }

  /** avg 100, last 94, stop loss 5%: a stop loss. */
  lemma StopLossExample(now: Instant, f: NumberFormat)
    ensures var r := EvaluateExit(TestPosition(100.0, 94.0), DefaultConfig.(stopLossPct := 0.05), now, f);
      r.Some? && r.value.signalType == StopLoss
  {
    assert ResolvePct(TestPosition(100.0, 94.0)) == -0.06;
  }

  /** avg 100, last 115, take profit 10%: a take profit. */
  lemma TakeProfitExample(now: Instant, f: NumberFormat)
    ensures var r := EvaluateExit(TestPosition(100.0, 115.0), DefaultConfig.(takeProfitPct := 0.1, trailingPct := 0.02), now, f);
      r.Some? && r.value.signalType == TakeProfit
  {
    assert ResolvePct(TestPosition(100.0, 115.0)) == 0.15;
  }

  /** avg 100, last 110, trail 120, take profit 10%: the recomputed profit ratio
      0.1 already meets the take-profit rule, which outranks the trailing stop. */
  lemma TrailingExampleYieldsTakeProfit(now: Instant, f: NumberFormat)
    ensures var r := EvaluateExit(TestPosition(100.0, 110.0).(trailStop := 120.0), DefaultConfig.(takeProfitPct := 0.1, trailingPct := 0.02), now, f);
      r.Some? && r.value.signalType == TakeProfit
  {
    assert ResolvePct(TestPosition(100.0, 110.0).(trailStop := 120.0)) == 0.1;
  }

  /** With at most 3 positions, 2 held leaves room and 3 does not. */
  lemma CapacityExample()
    ensures CanOpenPosition(RiskConfig(0.07, 0.18, 0.03, -3.0, 3), 2)
    ensures !CanOpenPosition(RiskConfig(0.07, 0.18, 0.03, -3.0, 3), 3)
  {
  }

  /** The untruncated notification text for a signal and a caption. */
  function ExitText(s: ExitSignal, caption: string): string {
    "[v5] 매도 신호(" + s.signalType + "): " + caption + " — " + s.message
  }

  /** The caption: the symbol, followed by the display name when a non-empty one is given. */
  function ExitLabel(symbol: string, name: Option<string>): (caption: string)
    ensures name.None? || name.value == "" ==> caption == symbol
    ensures name.Some? && name.value != "" ==> caption == symbol + " " + name.value
  {
    if name.Some? && name.value != "" then symbol + " " + name.value else symbol
  }

  /** `format_exit_message`: the text cut to its first 200 characters. */
  function FormatExitMessage(s: ExitSignal, name: Option<string>): (r: string)
    ensures |r| <= 200
    ensures StartsWith(ExitText(s, ExitLabel(s.symbol, name)), r)
    ensures |ExitText(s, ExitLabel(s.symbol, name))| <= 200 ==> r == ExitText(s, ExitLabel(s.symbol, name))
    ensures |ExitText(s, ExitLabel(s.symbol, name))| >= 200 ==> |r| == 200
  {
    PyTake(ExitText(s, ExitLabel(s.symbol, name)), 200)
  }

  /** An empty display name reads exactly like no name at all. */
  lemma EmptyNameIsNoName(s: ExitSignal)
    ensures FormatExitMessage(s, Some("")) == FormatExitMessage(s, None)
  {
  }

  /** When the text fits, a given non-empty name appears in it right after the symbol. */
  lemma NameShownWhenGiven(s: ExitSignal, name: string)
    requires name != ""
    requires |ExitText(s, s.symbol + " " + name)| <= 200
    ensures Contains(FormatExitMessage(s, Some(name)), s.symbol + " " + name)
  {
    var head := "[v5] 매도 신호(" + s.signalType + "): ";
    var caption := s.symbol + " " + name;
    var text := ExitText(s, caption);
    assert text == head + caption + (" — " + s.message);
    ContainsAt(text, caption, |head|);
  }

  lemma {:induction false} ContainsAt(s: string, sub: string, i: nat)
    requires i + |sub| <= |s| && s[i..i + |sub|] == sub
    ensures Contains(s, sub)
  {
    if i > 0 {
      assert s[1..][i - 1..i - 1 + |sub|] == s[i..i + |sub|];
      ContainsAt(s[1..], sub, i - 1);
    }
  }
}
