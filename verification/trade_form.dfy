/** The order form of the desktop app (app_desktop/src/components/TradeForm.tsx):
    the quantity it derives from an amount, the quick-percentage buttons, the
    checks run before an order is posted, and the limit-price stepper.
    JavaScript numbers are modelled as reals; `Math.floor` is `Floor`. */
module TradeForm {
  import opened Wrappers

  datatype Side = Buy | Sell
  datatype Mode = QtyMode | AmountMode
  datatype PriceType = Market | Limit

  /** The form's inputs and state. `maxQty` is the optional holding size. */
  datatype Form = Form(
    symbol: string,
    side: Side,
    lastPrice: real,
    maxQty: Option<real>,
    mode: Mode,
    qty: real,
    amount: real,
    priceType: PriceType,
    limitPrice: real,
    approved: bool,
    disabled: bool)

  /** JavaScript truthiness of the optional holding size (NaN is not modelled). */
  predicate HasMax(maxQty: Option<real>) {
    maxQty.Some? && maxQty.value != 0.0
  }

  function MaxReal(a: real, b: real): real {
    if a >= b then a else b
  }

  /** The starting quantity: the whole holding for a sell, else one share. */
  function InitialQty(side: Side, maxQty: Option<real>): (r: real)
    ensures side == Sell && HasMax(maxQty) ==> r == maxQty.value
    ensures !(side == Sell && HasMax(maxQty)) ==> r == 1.0
  {
    if HasMax(maxQty) && side == Sell then maxQty.value else 1.0
  }

  /** `effectiveQty`: in amount mode the whole shares the amount buys at the last
      price (a price below 1 counts as 1); otherwise the typed quantity. */
  function EffectiveQty(f: Form): (r: real)
    ensures f.mode == AmountMode && f.amount > 0.0 ==>
      (var unit := MaxReal(f.lastPrice, 1.0);
       && r == r.Floor as real && r >= 0.0
       && r * unit <= f.amount < (r + 1.0) * unit)
    ensures !(f.mode == AmountMode && f.amount > 0.0) ==> r == f.qty
  {
    if f.mode == AmountMode && f.amount > 0.0 then
      var unit := MaxReal(f.lastPrice, 1.0);
      var n := (f.amount / unit).Floor;
      FloorBracket(f.amount, unit);
      MaxReal(0.0, n as real)
    else f.qty
  }

  /** The whole number of units in `amount` costs at most `amount`, and one more costs more. */
  lemma FloorBracket(amount: real, unit: real)
    requires unit > 0.0
    ensures (amount / unit).Floor as real * unit <= amount
    ensures amount < ((amount / unit).Floor as real + 1.0) * unit
  {
    var q := amount / unit;
    var n := q.Floor as real;
    assert q * unit == amount;
    assert n <= q < n + 1.0;
    MulBelow(n, q, unit);
    MulBelow(q, n + 1.0, unit);
    assert q * unit < (n + 1.0) * unit;
    assert amount < (n + 1.0) * unit;
  }

  lemma MulBelow(a: real, b: real, c: real)
    requires a <= b && c > 0.0
    ensures a * c <= b * c && (a < b ==> a * c < b * c)
  {
  }

  /** `r` is `max(1, floor(x))`: one below one share, else the whole number of shares in `x`. */
  predicate AtLeastOneWholeOf(r: real, x: real) {
    && (x < 1.0 ==> r == 1.0)
    && (x >= 1.0 ==> r == r.Floor as real && r <= x < r + 1.0)
  }

  /** The share count a quick button asks for before rounding: `pct` percent of the holding
      for a sell, `pct` percent of the amount (or of one share's price when no amount is
      typed) divided by the last price for a buy. */
  function QuickShare(f: Form, pct: real): real
    requires f.side == Buy ==> f.lastPrice > 0.0
  {
    if f.side == Sell then (if f.maxQty.Some? then f.maxQty.value else 0.0) * pct / 100.0
    else (if f.amount != 0.0 then f.amount else f.lastPrice) * pct / 100.0 / f.lastPrice
  }

  lemma FloorAtLeastOne(x: real)
    ensures AtLeastOneWholeOf(MaxReal(1.0, x.Floor as real), x)
    ensures MaxReal(1.0, x.Floor as real) >= 1.0
    ensures MaxReal(1.0, x.Floor as real) == MaxReal(1.0, x.Floor as real).Floor as real
  {
  }

  /** At most 100 percent of a holding of at least one share, rounded down, is at most the holding. */
  lemma PercentOfHolding(m: real, pct: real, x: real)
    requires 0.0 <= pct <= 100.0 && m >= 1.0 && x == m * pct / 100.0
    ensures MaxReal(1.0, x.Floor as real) <= m
  {
    assert m * pct / 100.0 <= m;
  }

  /** `handleQuick(pct)`: the new quantity, or the current one when neither branch applies. */
  function QuickQty(f: Form, pct: real): (r: real)
    ensures f.side == Sell && HasMax(f.maxQty) ==> AtLeastOneWholeOf(r, QuickShare(f, pct))
    ensures f.side == Buy && f.lastPrice > 0.0 ==> AtLeastOneWholeOf(r, QuickShare(f, pct))
    ensures f.side == Sell && HasMax(f.maxQty) ==> r >= 1.0 && r == r.Floor as real
    ensures f.side == Sell && HasMax(f.maxQty) && 0.0 <= pct <= 100.0 && f.maxQty.value >= 1.0 ==> r <= f.maxQty.value
    ensures f.side == Buy && f.lastPrice > 0.0 ==> r >= 1.0 && r == r.Floor as real
    ensures !(f.side == Sell && HasMax(f.maxQty)) && !(f.side == Buy && f.lastPrice > 0.0) ==> r == f.qty
  {
    if f.side == Sell && HasMax(f.maxQty) then
      var x := QuickShare(f, pct);
      FloorAtLeastOne(x);
      if 0.0 <= pct <= 100.0 && f.maxQty.value >= 1.0 then
        PercentOfHolding(f.maxQty.value, pct, x);
        MaxReal(1.0, x.Floor as real)
      else MaxReal(1.0, x.Floor as real)
    else if f.side == Buy && f.lastPrice > 0.0 then
      var x := QuickShare(f, pct);
      FloorAtLeastOne(x);
      MaxReal(1.0, x.Floor as real)
    else f.qty
  }

  /** What the form posts. `limitPrice` is sent only for a limit order. */
  datatype OrderRequest = OrderRequest(symbol: string, side: Side, qty: real, priceType: PriceType,
                                       limitPrice: Option<real>, approve: bool)

  /** The outcome of pressing submit: nothing at all, a refusal message, or a posted order. */
  datatype Outcome = Ignored | Refused(message: string) | Posted(request: OrderRequest)

  const NeedApproval := "승인 체크가 필요합니다."
  const CheckQuantity := "수량을 확인하세요."
  const ExceedsHolding := "보유 수량을 초과합니다."

  predicate ExceedsMax(f: Form) {
    f.side == Sell && HasMax(f.maxQty) && EffectiveQty(f) > f.maxQty.value
  }

  /** `submit`: the checks run in order (disabled, approval, quantity, holding) and an
      order is posted only when all pass. */
  function Submit(f: Form): (r: Outcome)
    ensures f.disabled ==> r == Ignored
    ensures !f.disabled && !f.approved ==> r == Refused(NeedApproval)
    ensures !f.disabled && f.approved && EffectiveQty(f) < 1.0 ==> r == Refused(CheckQuantity)
    ensures !f.disabled && f.approved && EffectiveQty(f) >= 1.0 && ExceedsMax(f) ==> r == Refused(ExceedsHolding)
    ensures r.Posted? <==> !f.disabled && f.approved && EffectiveQty(f) >= 1.0 && !ExceedsMax(f)
    ensures r.Posted? ==>
      (&& r.request.qty == EffectiveQty(f) && r.request.qty >= 1.0
       && (f.side == Sell && HasMax(f.maxQty) ==> r.request.qty <= f.maxQty.value)
       && (r.request.limitPrice.Some? <==> f.priceType == Limit)
       && (f.priceType == Limit ==> r.request.limitPrice == Some(f.limitPrice))
       && r.request.symbol == f.symbol && r.request.side == f.side && r.request.priceType == f.priceType
       && r.request.approve)
  {
    if f.disabled then Ignored
    else if !f.approved then Refused(NeedApproval)
    else if EffectiveQty(f) < 1.0 then Refused(CheckQuantity)
    else if ExceedsMax(f) then Refused(ExceedsHolding)
    else Posted(OrderRequest(f.symbol, f.side, EffectiveQty(f), f.priceType,
                             if f.priceType == Limit then Some(f.limitPrice) else None, f.approved))
  }

  /** In amount mode, any amount below one share's price is refused for quantity. */
  lemma AmountBelowPriceRefused(f: Form)
    requires !f.disabled && f.approved && f.mode == AmountMode
    requires 0.0 < f.amount < MaxReal(f.lastPrice, 1.0)
    ensures Submit(f) == Refused(CheckQuantity)
  {
    var r := EffectiveQty(f);
    assert r * MaxReal(f.lastPrice, 1.0) <= f.amount;
    if r >= 1.0 {
      MulBelow(1.0, r, MaxReal(f.lastPrice, 1.0));
      assert false;
    }
  }

  /** A sell sized by a quick-percentage button is never refused for the holding limit. */
  lemma QuickSellWithinHolding(f: Form, pct: real)
    requires f.side == Sell && HasMax(f.maxQty) && f.maxQty.value >= 1.0 && 0.0 <= pct <= 100.0
    requires !f.disabled && f.approved && f.mode == QtyMode
    ensures Submit(f.(qty := QuickQty(f, pct))).Posted?
  {
  }

  /** The "−" button of the limit-price stepper: one tick down, never below 1. */
  function StepDown(limitPrice: real, tick: real): (r: real)
    ensures r >= 1.0
    ensures limitPrice - tick >= 1.0 ==> r == limitPrice - tick
    ensures limitPrice - tick < 1.0 ==> r == 1.0
  {
    MaxReal(1.0, limitPrice - tick)
  }

  /** The "+" button: one tick up. */
  function StepUp(limitPrice: real, tick: real): (r: real)
    ensures r - tick == limitPrice
  {
    limitPrice + tick
  }

  /** Up then down returns to a price of at least 1; down then up does so when the
      price is at least a tick above 1. */
  lemma StepperRoundTrip(limitPrice: real, tick: real)
    ensures limitPrice >= 1.0 ==> StepDown(StepUp(limitPrice, tick), tick) == limitPrice
    ensures limitPrice - tick >= 1.0 ==> StepUp(StepDown(limitPrice, tick), tick) == limitPrice
  {
  }
}
