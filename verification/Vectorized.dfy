/** The vectorised backtester's trade loop and its pairing of buys with sells. */
module Vectorized {
  import opened Arithmetic
  import opened Matcher

  /** A trade of the loop; `bar` is the index of the bar it was made on. */
  datatype Trade = Trade(side: Side, price: real, quantity: int, bar: nat)

  datatype Params =
    Params(lotSize: LotSize, commissionRate: real, commissionMin: real, stampTaxRate: real, barsPerDay: int)

  datatype State = State(cash: real, position: int, todayBought: int, day: int, trades: seq<Trade>)

  /** Which bars the averages cross at, as found before the loop. */
  datatype Crosses = Crosses(golden: set<nat>, death: set<nat>)

  ghost predicate ValidParams(p: Params) {
    p.barsPerDay >= 1
  }

  function Commission(p: Params, amount: real): real {
    if amount * p.commissionRate >= p.commissionMin then amount * p.commissionRate else p.commissionMin
  }

  function DayOf(bar: nat, barsPerDay: int): int
    requires barsPerDay >= 1
  {
    bar / barsPerDay
  }

  /** How many shares the cash buys, at most ten lots and only whole ones. */
  function Affordable(p: Params, cash: real, price: real): int
  {
    var most := if price > 0.0 then Trunc(cash / price) else 0;
    var capped := if most <= p.lotSize * 10 then most else p.lotSize * 10;
    RoundToLot(capped, p.lotSize)
  }

  function NewDay(p: Params, s: State, bar: nat): State
    requires ValidParams(p)
  {
    var day := DayOf(bar, p.barsPerDay);
    if day > s.day then s.(todayBought := 0, day := day) else s
  }

  function TryBuy(p: Params, s: State, bar: nat, price: real): State
    requires ValidParams(p)
  {
    var shares := Affordable(p, s.cash, price);
    if shares <= 0 then s
    else
      var amount := shares as real * price;
      s.(cash := s.cash - (amount + Commission(p, amount)), position := shares, todayBought := shares,
         trades := s.trades + [Trade(Buy, price, shares, bar)])
  }

  function TrySell(p: Params, s: State, bar: nat, price: real): State
    requires ValidParams(p)
  {
    var sellable := s.position - s.todayBought;
    var shares := if sellable > 0 then RoundToLot(sellable, p.lotSize) else 0;
    if shares <= 0 then s
    else
      var amount := shares as real * price;
      s.(cash := s.cash + (amount - Commission(p, amount) - amount * p.stampTaxRate), position := s.position - shares,
         trades := s.trades + [Trade(Sell, price, shares, bar)])
  }

  /** One bar of the loop. */
  function Step(p: Params, s: State, bar: nat, price: real, x: Crosses): State
    requires ValidParams(p)
  {
    var today := NewDay(p, s, bar);
    if bar in x.golden && today.position == 0 then TryBuy(p, today, bar, price)
    else if bar in x.death && today.position > 0 then TrySell(p, today, bar, price)
    else today
  }

  function Start(cash: real): State {
    State(cash, 0, 0, 0, [])
  }

  /** The state after the first `n` bars. */
  function After(p: Params, cash: real, closes: seq<real>, x: Crosses, n: nat): State
    requires ValidParams(p) && n <= |closes|
  {
    if n == 0 then Start(cash) else Step(p, After(p, cash, closes, x, n - 1), n - 1, closes[n-1], x)
  }

  function Worth(s: State, price: real): real {
    s.cash + s.position as real * price
  }

  /** The worth before trading on each of the first `n` bars, at that bar's close. */
  function Values(p: Params, cash: real, closes: seq<real>, x: Crosses, n: nat): seq<real>
    requires ValidParams(p) && n <= |closes|
  {
    if n == 0 then []
    else Values(p, cash, closes, x, n - 1) + [Worth(After(p, cash, closes, x, n - 1), closes[n-1])]
  }

  method BuyOnBar(p: Params, s: State, bar: nat, price: real) returns (r: State)
    requires ValidParams(p)
    ensures r == TryBuy(p, s, bar, price)
  {
    r := s;
    var shares := Affordable(p, s.cash, price);
    if shares > 0 {
      var amount := shares as real * price;
      r := r.(cash := r.cash - (amount + Commission(p, amount)));
      r := r.(position := shares, todayBought := shares);
      r := r.(trades := r.trades + [Trade(Buy, price, shares, bar)]);
    }
  }

  method SellOnBar(p: Params, s: State, bar: nat, price: real) returns (r: State)
    requires ValidParams(p)
    ensures r == TrySell(p, s, bar, price)
  {
    r := s;
    var sellable := s.position - s.todayBought;
    if sellable > 0 {
      var shares := RoundToLot(sellable, p.lotSize);
      if shares > 0 {
        var amount := shares as real * price;
        r := r.(cash := r.cash + (amount - Commission(p, amount) - amount * p.stampTaxRate));
        r := r.(trades := r.trades + [Trade(Sell, price, shares, bar)]);
        r := r.(position := r.position - shares);
      }
    }
  }

  method TradeLoop(p: Params, initialCash: real, closes: seq<real>, x: Crosses) returns (s: State, values: seq<real>)
    requires ValidParams(p)
    ensures s == After(p, initialCash, closes, x, |closes|)
    ensures values == Values(p, initialCash, closes, x, |closes|)
  {
    s := Start(initialCash);
    values := [];
    for i := 0 to |closes|
      invariant s == After(p, initialCash, closes, x, i)
      invariant values == Values(p, initialCash, closes, x, i)
    {
      var price := closes[i];
      values := values + [Worth(s, price)];
      var dayIdx := DayOf(i, p.barsPerDay);
      if dayIdx > s.day {
        s := s.(todayBought := 0, day := dayIdx);
      }
      if i in x.golden && s.position == 0 {
        s := BuyOnBar(p, s, i, price);
      } else if i in x.death && s.position > 0 {
        s := SellOnBar(p, s, i, price);
      }
    }
  }

  // ---------------------------------------------------------------- what every run of the loop keeps

  /** Buys and sells alternate, each sell disposing of exactly what the buy before it bought, on a later day. */
  ghost predicate RoundTrips(p: Params, trades: seq<Trade>)
    requires ValidParams(p)
  {
    && (forall k :: 0 <= k < |trades| ==> (trades[k].side == Buy <==> k % 2 == 0) && trades[k].quantity > 0)
    && (forall k :: 0 < k < |trades| && k % 2 == 1 ==>
          && trades[k].quantity == trades[k-1].quantity
          && DayOf(trades[k-1].bar, p.barsPerDay) < DayOf(trades[k].bar, p.barsPerDay))
  }

  /** The open position is the last buy; it is sellable exactly if that buy is of an earlier day. */
  ghost predicate Open(p: Params, s: State)
    requires ValidParams(p)
  {
    && |s.trades| % 2 == 1
    && var buy := s.trades[|s.trades|-1];
      && buy.quantity == s.position && s.position > 0 && LotMultiple(s.position, p.lotSize)
      && ((s.todayBought == s.position && DayOf(buy.bar, p.barsPerDay) == s.day)
        || (s.todayBought == 0 && DayOf(buy.bar, p.barsPerDay) < s.day))
  }

  ghost predicate Inv(p: Params, s: State)
    requires ValidParams(p)
  {
    && RoundTrips(p, s.trades)
    && if |s.trades| % 2 == 1 then Open(p, s) else s.position == 0 && s.todayBought == 0
  }

  lemma LotsOfLots(n: int, lot: LotSize)
    requires LotMultiple(n, lot)
    ensures RoundToLot(n, lot) == n
  {
    RoundToLotIsGreatest(n, lot, n);
  }

  lemma QuotientAtLeast(k: int, n: int, m: int)
    requires m >= 1 && k * m <= n
    ensures k <= n / m
  {
    if k > n / m {
      MulIntLe(n / m + 1, k, m);
      assert false;
    }
  }

  lemma WholeLots(p: Params, cash: real, price: real)
    ensures LotMultiple(Affordable(p, cash, price), p.lotSize)
  {
    var most := if price > 0.0 then Trunc(cash / price) else 0;
    RoundToLotIsGreatest(if most <= p.lotSize * 10 then most else p.lotSize * 10, p.lotSize, 0);
  }

  lemma DayInv(p: Params, s: State, bar: nat)
    requires ValidParams(p) && Inv(p, s) && s.day <= DayOf(bar, p.barsPerDay)
    ensures Inv(p, NewDay(p, s, bar)) && NewDay(p, s, bar).day == DayOf(bar, p.barsPerDay)
  {
  }

  lemma BuyInv(p: Params, s: State, bar: nat, price: real)
    requires ValidParams(p) && Inv(p, s) && s.position == 0 && s.day == DayOf(bar, p.barsPerDay)
    ensures Inv(p, TryBuy(p, s, bar, price)) && TryBuy(p, s, bar, price).day == s.day
  {
    var shares := Affordable(p, s.cash, price);
    if shares > 0 {
      WholeLots(p, s.cash, price);
      RoundTripsBuy(p, s.trades, Trade(Buy, price, shares, bar));
    }
  }

  lemma RoundTripsBuy(p: Params, trades: seq<Trade>, t: Trade)
    requires ValidParams(p) && RoundTrips(p, trades) && |trades| % 2 == 0 && t.side == Buy && t.quantity > 0
    ensures RoundTrips(p, trades + [t])
  {
  }

  lemma RoundTripsSell(p: Params, trades: seq<Trade>, t: Trade)
    requires ValidParams(p) && RoundTrips(p, trades) && |trades| % 2 == 1 && t.side == Sell
    requires t.quantity > 0 && t.quantity == trades[|trades|-1].quantity
    requires DayOf(trades[|trades|-1].bar, p.barsPerDay) < DayOf(t.bar, p.barsPerDay)
    ensures RoundTrips(p, trades + [t])
  {
  }

  lemma SellInv(p: Params, s: State, bar: nat, price: real)
    requires ValidParams(p) && Inv(p, s) && s.position > 0 && s.day == DayOf(bar, p.barsPerDay)
    ensures Inv(p, TrySell(p, s, bar, price)) && TrySell(p, s, bar, price).day == s.day
  {
    if s.todayBought == 0 {
      LotsOfLots(s.position, p.lotSize);
      RoundTripsSell(p, s.trades, Trade(Sell, price, s.position, bar));
    }
  }

  lemma DaysPass(bar: nat, barsPerDay: int)
    requires barsPerDay >= 1
    ensures DayOf(bar, barsPerDay) <= DayOf(bar + 1, barsPerDay)
  {
    QuotientAtLeast(bar / barsPerDay, bar + 1, barsPerDay);
  }

  lemma {:induction false} LoopInv(p: Params, cash: real, closes: seq<real>, x: Crosses, n: nat)
    requires ValidParams(p) && n <= |closes|
    ensures Inv(p, After(p, cash, closes, x, n))
    ensures After(p, cash, closes, x, n).day == if n == 0 then 0 else DayOf(n - 1, p.barsPerDay)
  {
    if n > 0 {
      LoopInv(p, cash, closes, x, n - 1);
      var s, bar := After(p, cash, closes, x, n - 1), n - 1;
      if n > 1 {
        DaysPass(n - 2, p.barsPerDay);
      }
      DayInv(p, s, bar);
      var today := NewDay(p, s, bar);
      if bar in x.golden && today.position == 0 {
        BuyInv(p, today, bar, closes[bar]);
      } else if bar in x.death && today.position > 0 {
        SellInv(p, today, bar, closes[bar]);
      }
    }
  }

  /** Whatever bars the averages cross at: buys and sells strictly alternate, every sell closes the whole
      position of the buy before it, and does so on a later day. */
  lemma TradesAreRoundTrips(p: Params, cash: real, closes: seq<real>, x: Crosses)
    requires ValidParams(p)
    ensures RoundTrips(p, After(p, cash, closes, x, |closes|).trades)
  {
    LoopInv(p, cash, closes, x, |closes|);
  }

  // ---------------------------------------------------------------- pairing buys with sells

  function OfSide(trades: seq<Trade>, side: Side): seq<Trade> {
    if trades == [] then []
    else if trades[|trades|-1].side == side then OfSide(trades[..|trades|-1], side) + [trades[|trades|-1]]
    else OfSide(trades[..|trades|-1], side)
  }

  /** Of round trips, the k-th sell closes the k-th buy, so first-in-first-out pairing is the true pairing. */
  lemma {:induction false} PairingIsTrue(p: Params, trades: seq<Trade>)
    requires ValidParams(p) && RoundTrips(p, trades)
    ensures |OfSide(trades, Buy)| == (|trades| + 1) / 2 && |OfSide(trades, Sell)| == |trades| / 2
    ensures forall k :: 0 <= k < |OfSide(trades, Buy)| ==> OfSide(trades, Buy)[k] == trades[2*k]
    ensures forall k :: 0 <= k < |OfSide(trades, Sell)| ==> OfSide(trades, Sell)[k] == trades[2*k+1]
  {
    if trades != [] {
      var n := |trades| - 1;
      PairingIsTrue(p, trades[..n]);
      assert trades[n].side == Buy <==> n % 2 == 0;
    }
  }

  function Profit(buy: Trade, sell: Trade): real {
    (sell.price - buy.price) * sell.quantity as real
  }

  /** The profits of the first `n` sells, each against the buy of the same rank. */
  function ProfitSum(buys: seq<Trade>, sells: seq<Trade>, n: nat): real
    requires n <= |buys| && n <= |sells|
  {
    if n == 0 then 0.0 else ProfitSum(buys, sells, n - 1) + Profit(buys[n-1], sells[n-1])
  }

  predicate Wins(buy: Trade, sell: Trade) {
    Profit(buy, sell) > 0.0
  }

  function WinCount(buys: seq<Trade>, sells: seq<Trade>, n: nat): (w: nat)
    requires n <= |buys| && n <= |sells|
    ensures w <= n
  {
    if n == 0 then 0 else WinCount(buys, sells, n - 1) + if Wins(buys[n-1], sells[n-1]) then 1 else 0
  }

  /** The profits of those that won. */
  function GrossProfit(buys: seq<Trade>, sells: seq<Trade>, n: nat): (r: real)
    requires n <= |buys| && n <= |sells|
    ensures r >= 0.0 && (r > 0.0 <==> WinCount(buys, sells, n) > 0)
  {
    if n == 0 then 0.0
    else GrossProfit(buys, sells, n - 1) + if Wins(buys[n-1], sells[n-1]) then Profit(buys[n-1], sells[n-1]) else 0.0
  }

  /** The losses of those that did not. */
  function GrossLoss(buys: seq<Trade>, sells: seq<Trade>, n: nat): (r: real)
    requires n <= |buys| && n <= |sells|
    ensures r >= 0.0
  {
    if n == 0 then 0.0
    else GrossLoss(buys, sells, n - 1) + if Wins(buys[n-1], sells[n-1]) then 0.0 else -Profit(buys[n-1], sells[n-1])
  }

  function ProfitFactor(profit: real, loss: real): real {
    if loss > 0.0 then profit / loss else if profit > 0.0 then profit else 0.0
  }

  function WinRate(wins: nat, sells: nat): real
    requires sells > 0
  {
    wins as real / sells as real * 100.0
  }

  /** How many sells find a buy in the queue. */
  function Paired(buys: seq<Trade>, sells: seq<Trade>): nat {
    if |sells| <= |buys| then |sells| else |buys|
  }

  datatype Stats = Stats(winRate: real, profitFactor: real, totalTrades: nat)

  /** Pairs the sells with a queue of the buys. */
  method CalcTradeStats(trades: seq<Trade>) returns (stats: Stats)
    ensures var buys, sells := OfSide(trades, Buy), OfSide(trades, Sell);
      var n := Paired(buys, sells);
      stats == if n == 0 then Stats(0.0, 0.0, |trades|)
               else Stats(WinRate(WinCount(buys, sells, n), |sells|),
                          ProfitFactor(GrossProfit(buys, sells, n), GrossLoss(buys, sells, n)),
                          |buys| + |sells|)
  {
    var buys, sells := OfSide(trades, Buy), OfSide(trades, Sell);
    if sells == [] || buys == [] {
      return Stats(0.0, 0.0, |trades|);
    }
    var wins: nat, grossProfit, grossLoss := 0, 0.0, 0.0;
    var queue := buys;
    ghost var paired: nat := 0;
    for n := 0 to |sells|
      invariant paired == if n <= |buys| then n else |buys|
      invariant queue == buys[paired..]
      invariant wins == WinCount(buys, sells, paired)
      invariant grossProfit == GrossProfit(buys, sells, paired) && grossLoss == GrossLoss(buys, sells, paired)
    {
      if queue != [] {
        var buy := queue[0];
        queue := queue[1..];
        var profit := (sells[n].price - buy.price) * sells[n].quantity as real;
        if profit > 0.0 {
          wins := wins + 1;
          grossProfit := grossProfit + profit;
        } else {
          grossLoss := grossLoss + -profit;
        }
        paired := paired + 1;
      }
    }
    stats := Stats(WinRate(wins, |sells|), ProfitFactor(grossProfit, grossLoss), |buys| + |sells|);
  }

  lemma {:induction false} ProfitLessLoss(buys: seq<Trade>, sells: seq<Trade>, n: nat)
    requires n <= |buys| && n <= |sells|
    ensures GrossProfit(buys, sells, n) - GrossLoss(buys, sells, n) == ProfitSum(buys, sells, n)
  {
    if n > 0 {
      ProfitLessLoss(buys, sells, n - 1);
    }
  }

  lemma FactorAboveOne(profit: real, loss: real)
    requires loss > 0.0
    ensures ProfitFactor(profit, loss) > 1.0 <==> profit > loss
  {
    TimesBack(profit, loss);
    if profit > loss {
      CancelLt(1.0, profit / loss, loss);
    } else {
      CancelLe(profit / loss, 1.0, loss);
    }
  }

  /** What a trade moves in cash before costs. */
  function Flow(t: Trade): real {
    if t.side == Buy then -(t.price * t.quantity as real) else t.price * t.quantity as real
  }

  function NetFlow(trades: seq<Trade>): real {
    if trades == [] then 0.0 else NetFlow(trades[..|trades|-1]) + Flow(trades[|trades|-1])
  }

  /** The trades up to and including the n-th sell. */
  function Closed(trades: seq<Trade>): seq<Trade> {
    trades[..2 * (|trades| / 2)]
  }

  lemma NetFlowAppend(trades: seq<Trade>, t: Trade)
    ensures NetFlow(trades + [t]) == NetFlow(trades) + Flow(t)
  {
    assert (trades + [t])[..|trades|] == trades;
  }

  /** Two more trades, a buy and the sell that closes it. */
  lemma OneRoundTripMore(trades: seq<Trade>, n: nat)
    requires n > 0 && 2 * n <= |trades| && trades[2*n-2].side == Buy && trades[2*n-1].side == Sell
    requires trades[2*n-2].quantity == trades[2*n-1].quantity
    ensures NetFlow(trades[..2*n]) == NetFlow(trades[..2*(n-1)]) + Profit(trades[2*n-2], trades[2*n-1])
  {
    assert trades[..2*n] == (trades[..2*(n-1)] + [trades[2*n-2]]) + [trades[2*n-1]];
    NetFlowAppend(trades[..2*(n-1)], trades[2*n-2]);
    NetFlowAppend(trades[..2*(n-1)] + [trades[2*n-2]], trades[2*n-1]);
    SellMinusBuy(trades[2*n-2], trades[2*n-1]);
  }

  /** The k-th buy and the k-th sell are the trades 2k and 2k+1, of one size. */
  ghost predicate PairedAt(trades: seq<Trade>, buys: seq<Trade>, sells: seq<Trade>, k: nat) {
    && 2 * k + 1 < |trades| && k < |buys| && k < |sells|
    && buys[k] == trades[2*k] && buys[k].side == Buy
    && sells[k] == trades[2*k+1] && sells[k].side == Sell
    && buys[k].quantity == sells[k].quantity
  }

  lemma {:induction false} ProfitIsFlow(trades: seq<Trade>, buys: seq<Trade>, sells: seq<Trade>, n: nat)
    requires 2 * n <= |trades| && n <= |buys| && n <= |sells|
    requires forall k :: 0 <= k < n ==> PairedAt(trades, buys, sells, k)
    ensures ProfitSum(buys, sells, n) == NetFlow(trades[..2*n])
  {
    if n > 0 {
      ProfitIsFlow(trades, buys, sells, n - 1);
      assert PairedAt(trades, buys, sells, n - 1);
      OneRoundTripMore(trades, n);
    } else {
      assert trades[..0] == [];
    }
  }

  lemma TradesPaired(p: Params, trades: seq<Trade>, i: nat)
    requires ValidParams(p) && RoundTrips(p, trades) && i % 2 == 0 && i + 1 < |trades|
    ensures trades[i].side == Buy && trades[i+1].side == Sell && trades[i].quantity == trades[i+1].quantity
  {
    assert (i + 1) % 2 == 1;
    assert trades[i+1].side == Buy <==> (i + 1) % 2 == 0;
  }

  lemma PairedEverywhere(p: Params, trades: seq<Trade>, buys: seq<Trade>, sells: seq<Trade>, k: nat)
    requires ValidParams(p) && RoundTrips(p, trades) && 2 * k + 1 < |trades|
    requires k < |buys| && k < |sells| && buys[k] == trades[2*k] && sells[k] == trades[2*k+1]
    ensures PairedAt(trades, buys, sells, k)
  {
    TradesPaired(p, trades, 2 * k);
  }

  lemma SellMinusBuy(buy: Trade, sell: Trade)
    requires buy.side == Buy && sell.side == Sell && buy.quantity == sell.quantity
    ensures Profit(buy, sell) == Flow(buy) + Flow(sell)
  {
  }

  lemma AllPaired(p: Params, trades: seq<Trade>, buys: seq<Trade>, sells: seq<Trade>)
    requires ValidParams(p) && RoundTrips(p, trades) && buys == OfSide(trades, Buy) && sells == OfSide(trades, Sell)
    ensures forall k :: 0 <= k < |trades| / 2 ==> PairedAt(trades, buys, sells, k)
    ensures |sells| == |trades| / 2 && |buys| == (|trades| + 1) / 2
  {
    PairingIsTrue(p, trades);
    forall k | 0 <= k < |trades| / 2 ensures PairedAt(trades, buys, sells, k) {
      assert buys[k] == trades[2*k] && sells[k] == trades[2*k+1];
      PairedEverywhere(p, trades, buys, sells, k);
    }
  }

  /** Over every run of the loop the pairing accounts for every closed round trip: gross profit less gross
      loss is exactly the cash its trades moved before costs, so a run with a loss has a profit factor above
      one exactly if that is positive; at most one buy is still open. */
  lemma StatsAreTrue(p: Params, cash: real, closes: seq<real>, x: Crosses)
    requires ValidParams(p)
    ensures var trades := After(p, cash, closes, x, |closes|).trades;
      var buys, sells := OfSide(trades, Buy), OfSide(trades, Sell);
      && |sells| <= |buys| <= |sells| + 1 && Paired(buys, sells) == |sells|
      && var profit, loss := GrossProfit(buys, sells, |sells|), GrossLoss(buys, sells, |sells|);
        && profit - loss == NetFlow(Closed(trades))
        && (loss > 0.0 ==> (ProfitFactor(profit, loss) > 1.0 <==> NetFlow(Closed(trades)) > 0.0))
  {
    var trades := After(p, cash, closes, x, |closes|).trades;
    var buys, sells := OfSide(trades, Buy), OfSide(trades, Sell);
    TradesAreRoundTrips(p, cash, closes, x);
    AllPaired(p, trades, buys, sells);
    ProfitIsFlow(trades, buys, sells, |trades| / 2);
    ProfitLessLoss(buys, sells, |sells|);
    if GrossLoss(buys, sells, |sells|) > 0.0 {
      FactorAboveOne(GrossProfit(buys, sells, |sells|), GrossLoss(buys, sells, |sells|));
    }
  }

  // ---------------------------------------------------------------- no leverage

  lemma TruncatedShare(cash: real, price: real, n: int)
    requires price > 0.0 && n > 0 && n <= Trunc(cash / price)
    ensures n as real * price <= cash
  {
    TruncCap(cash / price, n);
    TimesBack(cash, price);
    MulLe(n as real, cash / price, price);
  }

  /** A buy is of at most ten lots and is covered by the cash before its commission. */
  lemma BuysAreCovered(p: Params, s: State, bar: nat, price: real)
    requires ValidParams(p)
    ensures var shares := Affordable(p, s.cash, price);
      && shares <= 10 * p.lotSize
      && (shares > 0 ==>
          && shares as real * price <= s.cash
          && TryBuy(p, s, bar, price).cash >= -Commission(p, shares as real * price))
  {
    var most := if price > 0.0 then Trunc(s.cash / price) else 0;
    var capped := if most <= p.lotSize * 10 then most else p.lotSize * 10;
    RoundToLotIsGreatest(capped, p.lotSize, 0);
    var shares := Affordable(p, s.cash, price);
    if shares > 0 {
      TruncatedShare(s.cash, price, shares);
    }
  }
}
