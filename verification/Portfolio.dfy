/** The portfolio of a backtest run: cash, positions, trade log and daily snapshots. `Book` is the
    abstract value; class `PortfolioState` is the object the engine updates in place. */
module Portfolio {
  import opened Wrappers
  import opened Bars
  import opened Arithmetic
  import opened Matcher

  datatype Position = Position(
    quantity: int,
    todayBought: int,
    averageCost: real,
    marketValue: real,
    stopLoss: Option<real>,
    takeProfit: Option<real>)
  {
    predicate StopLossHit(price: real) {
      stopLoss.Some? && quantity > 0 && price <= stopLoss.value
    }

    predicate TakeProfitHit(price: real) {
      takeProfit.Some? && quantity > 0 && price >= takeProfit.value
    }
  }

  const FLAT := Position(0, 0, 0.0, 0.0, None, None)

  datatype Trade = Trade(
    number: nat,
    instrument: string,
    side: Side,
    price: real,
    quantity: int,
    commission: real,
    stampTax: real,
    time: int,
    signalId: string)
  {
    function Shares(): int {
      if side == Buy then quantity else -quantity
    }

    /** The cost of the shares is positive and within `available`, commission aside. */
    predicate Covered(available: real) {
      stampTax == 0.0 && 0.0 < price * quantity as real <= available
    }

    function Cash(): real {
      if side == Buy then -(price * quantity as real + commission + stampTax)
      else price * quantity as real - commission - stampTax
    }
  }

  datatype DailyValue = DailyValue(date: int, cash: real, marketValue: real, totalAsset: real)

  /** `ids` lists the keys of `positions` in the order they were first used. */
  datatype Book = Book(
    cash: real,
    initialCash: real,
    ids: seq<string>,
    positions: map<string, Position>,
    trades: seq<Trade>,
    daily: seq<DailyValue>)

  ghost predicate WellFormed(b: Book) {
    && (forall i :: i in b.positions <==> i in b.ids)
    && (forall j, k :: 0 <= j < k < |b.ids| ==> b.ids[j] != b.ids[k])
  }

  function Held(b: Book, i: string): Position {
    if i in b.positions then b.positions[i] else FLAT
  }

  // ---------------------------------------------------------------- operations on books

  function OpenSlot(b: Book, i: string): Book {
    if i in b.positions then b else b.(ids := b.ids + [i], positions := b.positions[i := FLAT])
  }

  /** A position after `quantity` shares were bought at `price`. */
  function AfterBuy(p: Position, price: real, quantity: int): Position {
    var total := p.quantity + quantity;
    p.(quantity := total,
       todayBought := p.todayBought + quantity,
       averageCost := if total > 0
                      then (p.averageCost * (total - quantity) as real + price * quantity as real) / total as real
                      else p.averageCost)
  }

  function ApplyFill(b: Book, i: string, side: Side, price: real, quantity: int,
                     commission: real, stampTax: real, time: int, signalId: string): Book
  {
    var t := Trade(|b.trades| + 1, i, side, price, quantity, commission, stampTax, time, signalId);
    var p := Held(b, i);
    var p' := if side == Buy then AfterBuy(p, price, quantity) else p.(quantity := p.quantity - quantity);
    OpenSlot(b, i).(cash := b.cash + t.Cash(), positions := b.positions[i := p'], trades := b.trades + [t])
  }

  function ResetDay(b: Book): Book {
    b.(positions := map i | i in b.positions :: b.positions[i].(todayBought := 0))
  }

  function Marked(p: Position, i: string, prices: map<string, real>): Position {
    if i in prices then p.(marketValue := prices[i] * p.quantity as real) else p
  }

  function MarkToMarket(b: Book, prices: map<string, real>): Book {
    b.(positions := map i | i in b.positions :: Marked(b.positions[i], i, prices))
  }

  function MarketValue(ids: seq<string>, positions: map<string, Position>): real {
    if ids == [] then 0.0
    else MarketValue(ids[..|ids|-1], positions) +
         (var i := ids[|ids|-1]; if i in positions then positions[i].marketValue else 0.0)
  }

  function Snapshot(b: Book, date: int): Book {
    var mv := MarketValue(b.ids, b.positions);
    b.(daily := b.daily + [DailyValue(date, b.cash, mv, b.cash + mv)])
  }

  function SetStops(b: Book, i: string, stopLoss: Option<real>, takeProfit: Option<real>): Book {
    var p := Held(b, i);
    OpenSlot(b, i).(positions := b.positions[i := p.(
      stopLoss := if stopLoss.Some? then stopLoss else p.stopLoss,
      takeProfit := if takeProfit.Some? then takeProfit else p.takeProfit)])
  }

  function ClearStops(b: Book, i: string): Book {
    OpenSlot(b, i).(positions := b.positions[i := Held(b, i).(stopLoss := None, takeProfit := None)])
  }

  /** The instruments among `ids` whose stop-loss (or take-profit) the latest prices trigger. */
  function Triggered(ids: seq<string>, positions: map<string, Position>, prices: map<string, real>,
        loss: bool): seq<string>
  {
    if ids == [] then []
    else
      var i := ids[|ids|-1];
      Triggered(ids[..|ids|-1], positions, prices, loss) +
      if i in positions && i in prices &&
         (if loss then positions[i].StopLossHit(prices[i]) else positions[i].TakeProfitHit(prices[i]))
      then [i] else []
  }

  // ---------------------------------------------------------------- what the trade log says

  function NetCash(ts: seq<Trade>): real {
    if ts == [] then 0.0 else NetCash(ts[..|ts|-1]) + ts[|ts|-1].Cash()
  }

  function NetShares(ts: seq<Trade>, i: string): int {
    if ts == [] then 0
    else NetShares(ts[..|ts|-1], i) + if ts[|ts|-1].instrument == i then ts[|ts|-1].Shares() else 0
  }

  /** The holding of `i` before the first trade of day `d`. */
  function HoldingAtOpen(ts: seq<Trade>, i: string, d: int): int {
    if ts == [] then 0
    else
      var t := ts[|ts|-1];
      HoldingAtOpen(ts[..|ts|-1], i, d) + if t.instrument == i && DateOf(t.time) < d then t.Shares() else 0
  }

  function TradedOn(ts: seq<Trade>, i: string, d: int, side: Side): int {
    if ts == [] then 0
    else
      var t := ts[|ts|-1];
      TradedOn(ts[..|ts|-1], i, d, side) +
      if t.instrument == i && DateOf(t.time) == d && t.side == side then t.quantity else 0
  }

  /** Net shares of `i`, with the lowest and highest price bought at since it was last flat. */
  function BuySpan(ts: seq<Trade>, i: string): (int, real, real) {
    if ts == [] then (0, 0.0, 0.0)
    else
      var (net, lo, hi) := BuySpan(ts[..|ts|-1], i);
      var t := ts[|ts|-1];
      if t.instrument != i then (net, lo, hi)
      else if t.side == Sell then (net - t.quantity, lo, hi)
      else SpanAfterBuy((net, lo, hi), t.price, t.quantity)
  }

  function SpanAfterBuy(span: (int, real, real), price: real, quantity: int): (int, real, real) {
    var (net, lo, hi) := span;
    if net == 0 then (quantity, price, price)
    else (net + quantity, if price < lo then price else lo, if price > hi then price else hi)
  }

  // ---------------------------------------------------------------- invariants of a run

  /** The trade log replays to the state. */
  ghost predicate Replays(b: Book) {
    && b.cash == b.initialCash + NetCash(b.trades)
    && forall i :: Held(b, i).quantity == NetShares(b.trades, i)
  }

  /** Holdings are whole lots and contain what was bought today. */
  ghost predicate WholeLots(b: Book, lot: LotSize) {
    forall i :: 0 <= Held(b, i).todayBought <= Held(b, i).quantity && LotMultiple(Held(b, i).quantity, lot)
  }

  /** No day before `day` sold more of an instrument than it opened with. */
  ghost predicate SettledBefore(ts: seq<Trade>, day: int) {
    forall i, d :: d < day ==> TradedOn(ts, i, d, Sell) <= HoldingAtOpen(ts, i, d)
  }

  /** T+1 bookkeeping on day `day`, the latest day traded so far. */
  ghost predicate SettlesNextDay(b: Book, day: int) {
    && (forall k :: 0 <= k < |b.trades| ==> DateOf(b.trades[k].time) <= day)
    && (forall i :: Held(b, i).todayBought == TradedOn(b.trades, i, day, Buy))
    && SettledBefore(b.trades, day)
  }

  /** The average cost of a holding lies within the prices paid since the position was last flat. */
  ghost predicate CostWithinSpan(b: Book) {
    forall i :: CostInSpan(Held(b, i), BuySpan(b.trades, i))
  }

  predicate CostInSpan(p: Position, span: (int, real, real)) {
    span.0 == p.quantity && (p.quantity > 0 ==> span.1 <= p.averageCost <= span.2)
  }

  /** Every buy was covered by the cash before it, commission aside. */
  ghost predicate BuysCovered(ts: seq<Trade>, initialCash: real) {
    forall k :: 0 <= k < |ts| && ts[k].side == Buy ==> ts[k].Covered(initialCash + NetCash(ts[..k]))
  }

  ghost predicate Sound(b: Book, lot: LotSize, day: int) {
    WellFormed(b) && Replays(b) && WholeLots(b, lot) && SettlesNextDay(b, day) && CostWithinSpan(b) &&
    BuysCovered(b.trades, b.initialCash)
  }

  /** The terms on which the engine books a fill. */
  ghost predicate FillAllowed(b: Book, lot: LotSize, i: string, side: Side, price: real, quantity: int,
        stampTax: real)
  {
    && quantity > 0 && LotMultiple(quantity, lot)
    && (side == Buy ==> stampTax == 0.0 && price > 0.0 && price * quantity as real <= b.cash)
    && (side == Sell ==> quantity <= Held(b, i).quantity - Held(b, i).todayBought)
  }

  // ---------------------------------------------------------------- preservation

  ghost predicate SameHolding(p: Position, q: Position) {
    p.quantity == q.quantity && p.todayBought == q.todayBought && p.averageCost == q.averageCost
  }

  /** Marking, snapshots, stop levels and empty slots do not touch what the invariants speak of. */
  lemma SameHoldingsStaySound(b: Book, b': Book, lot: LotSize, day: int)
    requires Sound(b, lot, day) && WellFormed(b')
    requires b'.cash == b.cash && b'.initialCash == b.initialCash && b'.trades == b.trades
    requires forall i :: SameHolding(Held(b', i), Held(b, i))
    ensures Sound(b', lot, day)
  {
    forall i ensures Held(b', i).quantity == Held(b, i).quantity && Held(b', i).todayBought == Held(b, i).todayBought
      && Held(b', i).averageCost == Held(b, i).averageCost
    {
      assert SameHolding(Held(b', i), Held(b, i));
    }
  }

  lemma OpenSlotSound(b: Book, i: string, lot: LotSize, day: int)
    requires Sound(b, lot, day)
    ensures Sound(OpenSlot(b, i), lot, day)
  {
    SameHoldingsStaySound(b, OpenSlot(b, i), lot, day);
  }

  lemma SetStopsSound(b: Book, i: string, stopLoss: Option<real>, takeProfit: Option<real>, lot: LotSize, day: int)
    requires Sound(b, lot, day)
    ensures Sound(SetStops(b, i, stopLoss, takeProfit), lot, day)
    ensures Sound(ClearStops(b, i), lot, day)
  {
    SameHoldingsStaySound(b, SetStops(b, i, stopLoss, takeProfit), lot, day);
    SameHoldingsStaySound(b, ClearStops(b, i), lot, day);
  }

  lemma MarkAndSnapshotSound(b: Book, prices: map<string, real>, date: int, lot: LotSize, day: int)
    requires Sound(b, lot, day)
    ensures Sound(MarkToMarket(b, prices), lot, day)
    ensures Sound(Snapshot(b, date), lot, day)
  {
    SameHoldingsStaySound(b, MarkToMarket(b, prices), lot, day);
    SameHoldingsStaySound(b, Snapshot(b, date), lot, day);
  }

  /** A fresh book is sound on any day. */
  lemma EmptyBookSound(cash: real, lot: LotSize, day: int)
    ensures Sound(Book(cash, cash, [], map[], [], []), lot, day)
  {
    MultipleDivides(0, lot);
  }

  lemma {:induction false} AppendTrade(ts: seq<Trade>, t: Trade)
    ensures (ts + [t])[..|ts|] == ts && (ts + [t])[|ts|] == t
  {}

  /** Holdings at the open plus the day's buys less the day's sells are the holdings now. */
  lemma {:induction false} DayAccounts(ts: seq<Trade>, i: string, day: int)
    requires forall k :: 0 <= k < |ts| ==> DateOf(ts[k].time) <= day
    ensures NetShares(ts, i) == HoldingAtOpen(ts, i, day) + TradedOn(ts, i, day, Buy) - TradedOn(ts, i, day, Sell)
  {
    if ts != [] {
      DayAccounts(ts[..|ts|-1], i, day);
    }
  }

  lemma {:induction false} NothingAfter(ts: seq<Trade>, i: string, day: int, d: int)
    requires day < d && forall k :: 0 <= k < |ts| ==> DateOf(ts[k].time) <= day
    ensures TradedOn(ts, i, d, Buy) == 0 && TradedOn(ts, i, d, Sell) == 0
    ensures HoldingAtOpen(ts, i, d) == NetShares(ts, i)
  {
    if ts != [] {
      NothingAfter(ts[..|ts|-1], i, day, d);
    }
  }

  /** Starting a later day settles everything bought so far. */
  lemma ResetDaySound(b: Book, lot: LotSize, day: int, next: int)
    requires Sound(b, lot, day) && day < next
    ensures Sound(ResetDay(b), lot, next)
  {
    var b' := ResetDay(b);
    assert forall i :: Held(b', i) == Held(b, i).(todayBought := 0);
    forall i, d | d < next ensures TradedOn(b.trades, i, d, Sell) <= HoldingAtOpen(b.trades, i, d) {
      if d > day {
        NothingAfter(b.trades, i, day, d);
        assert Held(b, i).quantity >= 0;
      } else if d == day {
        DayAccounts(b.trades, i, day);
        assert Held(b, i).todayBought <= Held(b, i).quantity;
      }
    }
    forall i ensures TradedOn(b.trades, i, next, Buy) == 0 {
      NothingAfter(b.trades, i, day, next);
    }
  }

  /** A weighted average lies between its parts. */
  lemma WeightedAverageWithin(avg: real, q: real, price: real, n: real, lo: real, hi: real)
    requires q > 0.0 && n > 0.0
    requires lo <= avg <= hi && lo <= price <= hi
    ensures lo <= (avg * q + price * n) / (q + n) <= hi
  {
    WeightedSumBelow(lo, q, lo, n, avg, price);
    WeightedSumBelow(avg, q, price, n, hi, hi);
    DivideBounds(avg * q + price * n, q + n, lo, hi);
  }

  lemma WeightedSumBelow(a: real, q: real, b: real, n: real, a': real, b': real)
    requires q > 0.0 && n > 0.0 && a <= a' && b <= b'
    ensures a * q + b * n <= a' * q + b' * n
  {
    MulLe(a, a', q);
    MulLe(b, b', n);
  }

  lemma DivideBounds(s: real, d: real, lo: real, hi: real)
    requires d > 0.0 && lo * d <= s <= hi * d
    ensures lo <= s / d <= hi
  {
    var x := s / d;
    assert x * d == s;
    if x < lo { MulLt(x, lo, d); }
    if x > hi { MulLt(hi, x, d); }
  }

  /** Booking an allowed fill on the current day keeps the book sound. */
  lemma ApplyFillSound(b: Book, lot: LotSize, day: int, i: string, side: Side, price: real, quantity: int,
                       commission: real, stampTax: real, time: int, signalId: string)
    requires Sound(b, lot, day) && DateOf(time) == day
    requires FillAllowed(b, lot, i, side, price, quantity, stampTax)
    ensures Sound(ApplyFill(b, i, side, price, quantity, commission, stampTax, time, signalId), lot, day)
  {
    var b' := ApplyFill(b, i, side, price, quantity, commission, stampTax, time, signalId);
    var t := b'.trades[|b.trades|];
    FillSettles(b, b', t, lot, day);
    FillKeepsCost(b, b', t, lot, day);
    FillReplays(b, b', t, lot, day);
    MulLt(0.0, if price > 0.0 then price else 1.0, quantity as real);
    FillCovered(b, t);
  }

  /** `b'` holds what `b` holds, changed by the trade `t`. */
  ghost predicate BookedOn(b: Book, b': Book, t: Trade) {
    && b'.trades == b.trades + [t]
    && b'.cash == b.cash + t.Cash() && b'.initialCash == b.initialCash
    && (forall j :: j != t.instrument ==> Held(b', j) == Held(b, j))
    && var p := Held(b, t.instrument);
       Held(b', t.instrument) == if t.side == Buy then AfterBuy(p, t.price, t.quantity)
         else p.(quantity := p.quantity - t.quantity)
  }

  lemma FillSettles(b: Book, b': Book, t: Trade, lot: LotSize, day: int)
    requires Sound(b, lot, day) && BookedOn(b, b', t) && DateOf(t.time) == day
    ensures SettlesNextDay(b', day)
  {
    AppendTrade(b.trades, t);
  }

  lemma FillReplays(b: Book, b': Book, t: Trade, lot: LotSize, day: int)
    requires Sound(b, lot, day) && BookedOn(b, b', t)
    requires t.quantity > 0 && LotMultiple(t.quantity, lot)
    requires t.side == Sell ==> t.quantity <= Held(b, t.instrument).quantity - Held(b, t.instrument).todayBought
    ensures Replays(b') && WholeLots(b', lot)
  {
    AppendTrade(b.trades, t);
    LotMultiplesAdd(Held(b, t.instrument).quantity, t.quantity, lot);
  }

  lemma FillCovered(b: Book, t: Trade)
    requires BuysCovered(b.trades, b.initialCash) && b.cash == b.initialCash + NetCash(b.trades)
    requires t.side == Buy ==> t.Covered(b.cash)
    ensures BuysCovered(b.trades + [t], b.initialCash)
  {
    var ts := b.trades + [t];
    forall k | 0 <= k < |ts| && ts[k].side == Buy ensures ts[k].Covered(b.initialCash + NetCash(ts[..k])) {
      if k == |b.trades| {
        assert ts[..k] == b.trades;
      } else {
        assert ts[..k] == b.trades[..k];
      }
    }
  }

  lemma FillKeepsCost(b: Book, b': Book, t: Trade, lot: LotSize, day: int)
    requires Sound(b, lot, day) && BookedOn(b, b', t) && t.quantity > 0
    ensures CostWithinSpan(b')
  {
    AppendTrade(b.trades, t);
    forall j ensures CostInSpan(Held(b', j), BuySpan(b'.trades, j)) {
      assert CostInSpan(Held(b, j), BuySpan(b.trades, j));
      assert Held(b, j).quantity >= 0;
      if j == t.instrument && t.side == Buy {
        BuyKeepsCost(Held(b, j), BuySpan(b.trades, j), t.price, t.quantity);
      }
    }
  }

  lemma BuyKeepsCost(p: Position, span: (int, real, real), price: real, quantity: int)
    requires CostInSpan(p, span) && p.quantity >= 0 && quantity > 0
    ensures CostInSpan(AfterBuy(p, price, quantity), SpanAfterBuy(span, price, quantity))
  {
    var (net, lo, hi) := SpanAfterBuy(span, price, quantity);
    var q, n := p.quantity as real, quantity as real;
    assert (p.quantity + quantity) as real == q + n && (p.quantity + quantity) - quantity == p.quantity;
    assert AfterBuy(p, price, quantity).averageCost == (p.averageCost * q + price * n) / (q + n);
    if p.quantity == 0 {
      assert p.averageCost * q + price * n == price * n && q + n == n;
      DivideBounds(price * n, n, price, price);
    } else {
      WeightedAverageWithin(p.averageCost, q, price, n, lo, hi);
    }
  }

  // ---------------------------------------------------------------- what soundness means for a log

  /** On every day, no more shares of an instrument are sold than it opened with. */
  lemma NeverOversells(b: Book, lot: LotSize, day: int, i: string, d: int)
    requires Sound(b, lot, day)
    ensures TradedOn(b.trades, i, d, Sell) <= HoldingAtOpen(b.trades, i, d)
  {
    assert Held(b, i).todayBought <= Held(b, i).quantity;
    if d == day {
      DayAccounts(b.trades, i, day);
    } else if d > day {
      NothingAfter(b.trades, i, day, d);
    }
  }

  /** The largest commission paid on a buy, or zero. */
  function LargestBuyCommission(ts: seq<Trade>): real {
    if ts == [] then 0.0
    else
      var c := LargestBuyCommission(ts[..|ts|-1]);
      var t := ts[|ts|-1];
      if t.side == Buy && t.commission > c then t.commission else c
  }

  /** No buy is made from a deficit or leaves cash below minus its own commission. */
  lemma BuyFloor(ts: seq<Trade>, initialCash: real, k: nat)
    requires BuysCovered(ts, initialCash) && k < |ts| && ts[k].side == Buy
    ensures initialCash + NetCash(ts[..k]) > 0.0 && initialCash + NetCash(ts[..k+1]) >= -ts[k].commission
  {
    assert ts[..k+1][..k] == ts[..k];
  }

  lemma CoveredPrefix(ts: seq<Trade>, initialCash: real)
    requires BuysCovered(ts, initialCash) && ts != []
    ensures BuysCovered(ts[..|ts|-1], initialCash)
  {
    forall k | 0 <= k < |ts| - 1 ensures ts[..|ts|-1][..k] == ts[..k] {}
  }

  /** When every sell brings in at least its costs, cash never falls below minus the largest buy commission. */
  lemma {:induction false} CashFloor(ts: seq<Trade>, initialCash: real)
    requires BuysCovered(ts, initialCash) && initialCash >= 0.0
    requires forall k :: 0 <= k < |ts| && ts[k].side == Sell ==> ts[k].Cash() >= 0.0
    ensures initialCash + NetCash(ts) >= -LargestBuyCommission(ts)
  {
    if ts != [] {
      var n := |ts| - 1;
      CoveredPrefix(ts, initialCash);
      CashFloor(ts[..n], initialCash);
      if ts[n].side == Buy {
        BuyFloor(ts, initialCash, n);
        assert ts[..n+1] == ts;
      }
    }
  }

  // ---------------------------------------------------------------- what a fill books

  /** A fill moves its amount between cash and shares, takes commission and tax from the cash either way, averages the
      cost of what is bought in by weight and touches no other position. */
  lemma FillBooks(b: Book, i: string, side: Side, price: real, quantity: int, commission: real, stampTax: real,
                  time: int, signalId: string)
    requires quantity > 0 && Held(b, i).quantity >= 0
    ensures var b' := ApplyFill(b, i, side, price, quantity, commission, stampTax, time, signalId);
      var p, p' := Held(b, i), Held(b', i);
      && b'.cash + commission + stampTax ==
           (if side == Buy then b.cash - price * quantity as real else b.cash + price * quantity as real)
      && p'.quantity == (if side == Buy then p.quantity + quantity else p.quantity - quantity)
      && p'.todayBought == (if side == Buy then p.todayBought + quantity else p.todayBought)
      && (side == Buy ==>
            p'.averageCost * p'.quantity as real == p.averageCost * p.quantity as real + price * quantity as real)
      && (side == Sell ==> p'.averageCost == p.averageCost)
      && p'.stopLoss == p.stopLoss && p'.takeProfit == p.takeProfit
      && forall j :: j != i ==> Held(b', j) == Held(b, j)
    ensures ApplyFill(b, i, side, price, quantity, commission, stampTax, time, signalId).trades
         == b.trades + [Trade(|b.trades| + 1, i, side, price, quantity, commission, stampTax, time, signalId)]
  {
    var p := Held(b, i);
    if side == Buy {
      var total := (p.quantity + quantity) as real;
      assert p.quantity + quantity - quantity == p.quantity;
      TimesBack(p.averageCost * p.quantity as real + price * quantity as real, total);
    }
  }

  /** Buying and selling again at an unchanged open leaves the holding as it was and costs the slippage twice for every
      share, and what both fills are charged. */
  lemma RoundTripCosts(c: Config, b: Book, i: string, open: Bar, close: Bar, bought: MatchResult, sold: MatchResult,
                       t0: int, t1: int)
    requires open.open == close.open && bought.Fill? && sold.Fill? && bought.quantity == sold.quantity > 0
    requires FairTerms(c, Buy, open, bought.price, bought.quantity, bought.commission, bought.stampTax)
    requires FairTerms(c, Sell, close, sold.price, sold.quantity, sold.commission, sold.stampTax)
    requires Held(b, i).quantity >= 0
    ensures var mid := ApplyFill(b, i, Buy, bought.price, bought.quantity, bought.commission, bought.stampTax, t0, "");
      var end := ApplyFill(mid, i, Sell, sold.price, sold.quantity, sold.commission, sold.stampTax, t1, "");
      && Held(end, i).quantity == Held(b, i).quantity
      && b.cash - end.cash ==
           2.0 * c.costs.slippage * bought.quantity as real + bought.commission + sold.commission + sold.stampTax
  {
    FillBooks(b, i, Buy, bought.price, bought.quantity, bought.commission, bought.stampTax, t0, "");
    var mid := ApplyFill(b, i, Buy, bought.price, bought.quantity, bought.commission, bought.stampTax, t0, "");
    FillBooks(mid, i, Sell, sold.price, sold.quantity, sold.commission, sold.stampTax, t1, "");
    TwiceTheSlippage(open.open, c.costs.slippage, bought.quantity as real);
  }

  lemma TwiceTheSlippage(open: real, slippage: real, n: real)
    ensures (open + slippage) * n - (open - slippage) * n == 2.0 * slippage * n
  {
  }
}
