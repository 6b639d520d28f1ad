/** Transaction costs, daily price limits and the order matcher. Money and prices are exact reals. */
module Matcher {
  import opened Wrappers
  import opened Bars
  import opened Arithmetic

  datatype Side = Buy | Sell

  datatype SignalType = OpenLong | CloseLong | OpenShort | CloseShort | Flatten | Hold

  datatype Instrument = Instrument(id: string, isSt: bool, boardType: string)

  /** `limitPrice` is consulted only when `isLimit` holds; quantity 0 means "as much as possible". */
  datatype Order = Order(
    instrument: string,
    side: Side,
    quantity: int,
    isLimit: bool,
    limitPrice: Option<real>,
    stopLoss: Option<real>,
    takeProfit: Option<real>,
    signalId: string)

  datatype CostModel = CostModel(commissionRate: real, commissionMin: real, stampTaxRate: real, slippage: real) {

    function Commission(amount: real): real {
      if amount * commissionRate < commissionMin then commissionMin else amount * commissionRate
    }

    function StampTax(amount: real, side: Side): real {
      if side == Sell then amount * stampTaxRate else 0.0
    }
  }

  datatype PriceLimitRule = PriceLimitRule(normal: real, st: real, registration: real) {

    function Limit(isSt: bool, boardType: string): real {
      if isSt then st
      else if boardType in ["创业板", "科创板", "gem", "star"] then registration
      else normal
    }

    predicate WithinLimit(price: real, prevClose: real, isSt: bool, boardType: string) {
      prevClose == 0.0 ||
      var limit := Limit(isSt, boardType);
      prevClose * (1.0 - limit) <= price <= prevClose * (1.0 + limit)
    }
  }

  type LotSize = n: int | 0 < n witness 100

  datatype Config = Config(costs: CostModel, limits: PriceLimitRule, lotSize: LotSize, participationRate: real)

  datatype MatchResult =
    | Fill(price: real, quantity: int, commission: real, stampTax: real)
    | NoFill(reason: string)

  function RoundToLot(quantity: int, lot: LotSize): int {
    quantity / lot * lot
  }

  function SlippedPrice(c: Config, side: Side, bar: Bar): real {
    if side == Buy then bar.open + c.costs.slippage else bar.open - c.costs.slippage
  }

  function MaxByCash(cash: real, price: real): int {
    if price > 0.0 then Trunc(cash / price) else 0
  }

  function MaxByVolume(c: Config, bar: Bar): int {
    Trunc(bar.volume as real * c.participationRate)
  }

  function SignalToSide(t: SignalType): Option<Side> {
    match t
    case OpenLong | CloseShort => Some(Buy)
    case CloseLong | OpenShort => Some(Sell)
    case _ => None
  }

  function Filled(c: Config, side: Side, price: real, quantity: int): MatchResult {
    var amount := price * quantity as real;
    Fill(price, quantity, c.costs.Commission(amount), c.costs.StampTax(amount, side))
  }

  /** Matching a bare signal, which always asks for the largest possible quantity. */
  function MatchSignal(c: Config, t: SignalType, bar: Bar, prevClose: real, instrument: Instrument,
                       position: int, todayBought: int, cash: real): MatchResult
  {
    if SignalToSide(t).None? then NoFill("unsupported_signal_type") else
    var side := SignalToSide(t).value;
    if side == Sell && position - todayBought <= 0 then NoFill("t_plus_1_blocked") else
    var price := SlippedPrice(c, side, bar);
    if !c.limits.WithinLimit(price, prevClose, instrument.isSt, instrument.boardType)
    then NoFill("price_limit_hit") else
    if bar.volume <= 0 then NoFill("zero_volume") else
    var raw := if side == Buy then Min(MaxByCash(cash, price), MaxByVolume(c, bar))
               else Min(position - todayBought, MaxByVolume(c, bar));
    var quantity := RoundToLot(raw, c.lotSize);
    if quantity <= 0 then NoFill("insufficient_funds_or_volume")
    else Filled(c, side, price, quantity)
  }

  predicate LimitNotReached(o: Order, bar: Bar) {
    o.isLimit && o.limitPrice.Some? &&
    if o.side == Buy then bar.open > o.limitPrice.value else bar.open < o.limitPrice.value
  }

  /** Matching an order, which may carry a quantity and a limit price. */
  function MatchOrder(c: Config, o: Order, bar: Bar, prevClose: real, instrument: Instrument,
                      position: int, todayBought: int, cash: real): MatchResult
  {
    if LimitNotReached(o, bar) then NoFill("limit_price_not_reached") else
    var price := SlippedPrice(c, o.side, bar);
    if !c.limits.WithinLimit(price, prevClose, instrument.isSt, instrument.boardType)
    then NoFill("price_limit_hit") else
    if bar.volume <= 0 then NoFill("zero_volume") else
    var own := if o.side == Buy then MaxByCash(cash, price) else position - todayBought;
    var raw := if o.quantity > 0 then Min(o.quantity, Min(own, MaxByVolume(c, bar))) else Min(own, MaxByVolume(c, bar));
    var quantity := RoundToLot(raw, c.lotSize);
    if quantity <= 0 then
      NoFill(if o.side == Sell && position - todayBought <= 0 then "t_plus_1_blocked"
        else "insufficient_funds_or_volume")
    else Filled(c, o.side, price, quantity)
  }

  /** The order reaches the sizing stage: limit reached, price inside the daily band, bar traded. */
  predicate Tradeable(c: Config, o: Order, bar: Bar, prevClose: real, instrument: Instrument) {
    !LimitNotReached(o, bar) && bar.volume > 0 &&
    c.limits.WithinLimit(SlippedPrice(c, o.side, bar), prevClose, instrument.isSt, instrument.boardType)
  }

  /** `n` shares respect every cap on the order: what was asked for, the bar's volume share,
      the cash for a buy, the settled shares for a sell. Stated without the matcher's roundings. */
  predicate Fits(c: Config, o: Order, bar: Bar, position: int, todayBought: int, cash: real, n: int) {
    var price := SlippedPrice(c, o.side, bar);
    && (o.quantity > 0 ==> n <= o.quantity)
    && n as real <= bar.volume as real * c.participationRate
    && (o.side == Buy ==> price > 0.0 && price * n as real <= cash)
    && (o.side == Sell ==> n <= position - todayBought)
  }

  predicate LotMultiple(n: int, lot: LotSize) {
    n % lot == 0
  }

  // ---------------------------------------------------------------- sizing

  lemma CashCap(cash: real, price: real, n: int)
    requires n > 0
    ensures n <= MaxByCash(cash, price) <==> price > 0.0 && price * n as real <= cash
  {
    if price > 0.0 {
      TruncCap(cash / price, n);
      var q := cash / price;
      assert q * price == cash;
      if n as real <= q {
        MulLe(n as real, q, price);
      } else {
        MulLt(q, n as real, price);
      }
    }
  }

  lemma RoundToLotIsGreatest(quantity: int, lot: LotSize, n: int)
    ensures LotMultiple(RoundToLot(quantity, lot), lot)
    ensures RoundToLot(quantity, lot) <= quantity
    ensures LotMultiple(n, lot) && n <= quantity ==> n <= RoundToLot(quantity, lot)
  {
    var q := quantity / lot;
    assert quantity == q * lot + quantity % lot;
    MultipleDivides(q, lot);
    if LotMultiple(n, lot) && n <= quantity {
      var k := n / lot;
      assert n == k * lot;
      assert (q + 1) * lot == q * lot + lot;
      if k > q {
        MulIntLe(q + 1, k, lot);
      }
      MulIntLe(k, q, lot);
    }
  }

  lemma LotMultiplesAdd(a: int, b: int, lot: LotSize)
    requires LotMultiple(a, lot) && LotMultiple(b, lot)
    ensures LotMultiple(a + b, lot) && LotMultiple(a - b, lot)
  {
    var i, j := a / lot, b / lot;
    assert a == i * lot && b == j * lot;
    assert a + b == (i + j) * lot && a - b == (i - j) * lot;
    MultipleDivides(i + j, lot);
    MultipleDivides(i - j, lot);
  }

  /** A fill is inside the daily band and its quantity is the greatest positive lot multiple that
      respects every cap; the order is filled exactly when some positive lot multiple does. */
  lemma FillIsGreatestLot(c: Config, o: Order, bar: Bar, prevClose: real, instrument: Instrument,
                          position: int, todayBought: int, cash: real, n: int)
    requires n > 0 && LotMultiple(n, c.lotSize)
    ensures var r := MatchOrder(c, o, bar, prevClose, instrument, position, todayBought, cash);
      && (r.Fill? ==>
            && Tradeable(c, o, bar, prevClose, instrument)
            && r.price == SlippedPrice(c, o.side, bar)
            && r.quantity > 0 && LotMultiple(r.quantity, c.lotSize)
            && Fits(c, o, bar, position, todayBought, cash, r.quantity)
            && (Fits(c, o, bar, position, todayBought, cash, n) ==> n <= r.quantity))
      && (Tradeable(c, o, bar, prevClose, instrument) && Fits(c, o, bar, position, todayBought, cash, n) ==> r.Fill?)
  {
    if Tradeable(c, o, bar, prevClose, instrument) {
      var price := SlippedPrice(c, o.side, bar);
      var own := if o.side == Buy then MaxByCash(cash, price) else position - todayBought;
      var raw := if o.quantity > 0 then Min(o.quantity, Min(own, MaxByVolume(c, bar)))
          else Min(own, MaxByVolume(c, bar));
      RoundToLotIsGreatest(raw, c.lotSize, n);
      var quantity := RoundToLot(raw, c.lotSize);
      FitsIffBelow(c, o, bar, position, todayBought, cash, n);
      if quantity > 0 {
        FitsIffBelow(c, o, bar, position, todayBought, cash, quantity);
      }
    }
  }

  lemma FitsIffBelow(c: Config, o: Order, bar: Bar, position: int, todayBought: int, cash: real, n: int)
    requires n > 0
    ensures
      var price := SlippedPrice(c, o.side, bar);
      var own := if o.side == Buy then MaxByCash(cash, price) else position - todayBought;
      var raw := if o.quantity > 0 then Min(o.quantity, Min(own, MaxByVolume(c, bar)))
          else Min(own, MaxByVolume(c, bar));
      Fits(c, o, bar, position, todayBought, cash, n) <==> n <= raw
  {
    TruncCap(bar.volume as real * c.participationRate, n);
    CashCap(cash, SlippedPrice(c, o.side, bar), n);
  }

  /** The largest move a day allows, as a share of the previous close: for special treatment first, then for the
      boards with registered listing. */
  predicate DailyLimit(limits: PriceLimitRule, instrument: Instrument, limit: real) {
    var registered := || instrument.boardType == "创业板" || instrument.boardType == "科创板"
                      || instrument.boardType == "gem" || instrument.boardType == "star";
    && (instrument.isSt ==> limit == limits.st)
    && (!instrument.isSt && registered ==> limit == limits.registration)
    && (!instrument.isSt && !registered ==> limit == limits.normal)
  }

  /** `m` is the larger of the two. */
  predicate IsMax(m: real, a: real, b: real) {
    m >= a && m >= b && (m == a || m == b)
  }

  /** What a fill costs: slippage against the trader on the bar's open, commission on the amount with its minimum, and
      stamp tax on sales only. */
  ghost predicate FairTerms(c: Config, side: Side, bar: Bar, price: real, quantity: int, commission: real, tax: real) {
    var amount := price * quantity as real;
    && price == (if side == Buy then bar.open + c.costs.slippage else bar.open - c.costs.slippage)
    && IsMax(commission, amount * c.costs.commissionRate, c.costs.commissionMin)
    && tax == (if side == Sell then amount * c.costs.stampTaxRate else 0.0)
  }

  /** Every fill is on these terms, and never beyond the order's limit or the daily limit. */
  lemma FillTerms(c: Config, o: Order, bar: Bar, prevClose: real, instrument: Instrument,
                  position: int, todayBought: int, cash: real, limit: real)
    requires DailyLimit(c.limits, instrument, limit)
    ensures var r := MatchOrder(c, o, bar, prevClose, instrument, position, todayBought, cash);
      r.Fill? ==>
        && FairTerms(c, o.side, bar, r.price, r.quantity, r.commission, r.stampTax)
        && (o.isLimit && o.limitPrice.Some? ==>
              if o.side == Buy then bar.open <= o.limitPrice.value else bar.open >= o.limitPrice.value)
        && (prevClose != 0.0 ==> prevClose - prevClose * limit <= r.price <= prevClose + prevClose * limit)
  {
    assert prevClose * (1.0 - limit) == prevClose - prevClose * limit;
    assert prevClose * (1.0 + limit) == prevClose + prevClose * limit;
  }

  /** When an order can be traded at all: its limit admits the open, the bar has volume and the price after slippage is
      within the day's limits, if there is a previous close. */
  lemma TradeableExactlyWhen(c: Config, o: Order, bar: Bar, prevClose: real, instrument: Instrument, limit: real)
    requires DailyLimit(c.limits, instrument, limit)
    ensures var price := if o.side == Buy then bar.open + c.costs.slippage else bar.open - c.costs.slippage;
      Tradeable(c, o, bar, prevClose, instrument) <==>
        && bar.volume > 0
        && (o.isLimit && o.limitPrice.Some? ==>
              if o.side == Buy then bar.open <= o.limitPrice.value else o.limitPrice.value <= bar.open)
        && (prevClose != 0.0 ==> prevClose - prevClose * limit <= price <= prevClose + prevClose * limit)
  {
    assert prevClose * (1.0 - limit) == prevClose - prevClose * limit;
    assert prevClose * (1.0 + limit) == prevClose + prevClose * limit;
  }

  lemma NeverMoreThanAsked(c: Config, o: Order, bar: Bar, prevClose: real, instrument: Instrument,
                           position: int, todayBought: int, cash: real)
    ensures var r := MatchOrder(c, o, bar, prevClose, instrument, position, todayBought, cash);
      r.Fill? && o.quantity > 0 ==> r.quantity <= o.quantity
  {
    MultipleDivides(1, c.lotSize);
    FillIsGreatestLot(c, o, bar, prevClose, instrument, position, todayBought, cash, c.lotSize);
  }

  /** On an unsized market order both matchers give the same fill at the same price, quantity and
      costs; they can differ only in the reason they give for refusing a sell of unsettled shares. */
  lemma MatchersAgree(c: Config, t: SignalType, o: Order, bar: Bar, prevClose: real, instrument: Instrument,
                      position: int, todayBought: int, cash: real)
    requires SignalToSide(t) == Some(o.side) && o.quantity == 0 && !o.isLimit
    ensures var a := MatchSignal(c, t, bar, prevClose, instrument, position, todayBought, cash);
            var b := MatchOrder(c, o, bar, prevClose, instrument, position, todayBought, cash);
      && (a.Fill? <==> b.Fill?)
      && (a != b ==> o.side == Sell && position <= todayBought && a == NoFill("t_plus_1_blocked") && b.NoFill?)
  {
    if o.side == Sell && position - todayBought <= 0 {
      RoundToLotIsGreatest(Min(position - todayBought, MaxByVolume(c, bar)), c.lotSize, 0);
    }
  }

  /** The signals that trade: two buy, two sell, the others are not matched. */
  lemma SignalsThatTrade(c: Config, t: SignalType, bar: Bar, prevClose: real, instrument: Instrument,
                         position: int, todayBought: int, cash: real)
    ensures var r := MatchSignal(c, t, bar, prevClose, instrument, position, todayBought, cash);
      r.Fill? ==>
        && t != Flatten && t != Hold
        && (t == OpenLong || t == CloseShort ==> r.price == bar.open + c.costs.slippage && r.stampTax == 0.0)
        && (t == CloseLong || t == OpenShort ==>
              r.price == bar.open - c.costs.slippage && r.quantity <= position - todayBought)
  {
    if SignalToSide(t).Some? {
      RoundToLotIsGreatest(Min(position - todayBought, MaxByVolume(c, bar)), c.lotSize, 0);
    }
  }
}
