/** What the vectorised backtester trades, when, and what its cash and values amount to. */
module VectorizedAccounts {
  import opened Arithmetic
  import opened Matcher
  import opened Vectorized

  // ---------------------------------------------------------------- how much

  /** What is bought is the greatest number of whole lots, ten at most, that the cash covers before commission. */
  lemma BuysTheGreatestLot(p: Params, cash: real, price: real, n: int)
    requires n > 0 && LotMultiple(n, p.lotSize)
    ensures var shares := Affordable(p, cash, price);
      && LotMultiple(shares, p.lotSize)
      && (shares > 0 ==> price > 0.0 && shares <= 10 * p.lotSize && shares as real * price <= cash)
      && (price > 0.0 && n <= 10 * p.lotSize && n as real * price <= cash ==> n <= shares)
  {
    var most := if price > 0.0 then Trunc(cash / price) else 0;
    var capped := if most <= p.lotSize * 10 then most else p.lotSize * 10;
    WholeLots(p, cash, price);
    RoundToLotIsGreatest(capped, p.lotSize, n);
    var shares := Affordable(p, cash, price);
    if shares > 0 {
      assert price > 0.0;
      TruncatedShare(cash, price, shares);
    }
    if price > 0.0 && n as real * price <= cash {
      WithinCash(cash, price, n);
    }
  }

  lemma WithinCash(cash: real, price: real, n: int)
    requires price > 0.0 && n > 0 && n as real * price <= cash
    ensures n <= Trunc(cash / price)
  {
    TimesBack(cash, price);
    CancelLe(n as real, cash / price, price);
    TruncCap(cash / price, n);
  }

  // ---------------------------------------------------------------- when

  /** One bar of the loop: it buys exactly if the averages cross upwards, nothing is held and a lot can be afforded, and
      it sells, all that is held, exactly if they cross downwards and what is held was bought on an earlier day. */
  lemma {:induction false} CrossesAreActedOn(p: Params, cash: real, closes: seq<real>, x: Crosses, n: nat)
    requires ValidParams(p) && n < |closes|
    ensures var s, s', price := After(p, cash, closes, x, n), After(p, cash, closes, x, n + 1), closes[n];
      var buys := n in x.golden && s.position == 0 && Affordable(p, s.cash, price) > 0;
      var sells := n in x.death && s.position > 0 && s.trades != []
        && s.trades[|s.trades|-1].bar / p.barsPerDay < n / p.barsPerDay;
      && (s.position > 0 ==> s.trades != [] && s.trades[|s.trades|-1].side == Buy)
      && (buys ==> s'.trades == s.trades + [Trade(Buy, price, Affordable(p, s.cash, price), n)]
                   && s'.position == Affordable(p, s.cash, price))
      && (sells ==> s'.trades == s.trades + [Trade(Sell, price, s.position, n)] && s'.position == 0)
      && (!buys && !sells ==> s'.trades == s.trades && s'.position == s.position && s'.cash == s.cash)
  {
    LoopInv(p, cash, closes, x, n);
    var s := After(p, cash, closes, x, n);
    if n > 0 {
      DaysPass(n - 1, p.barsPerDay);
    }
    DayInv(p, s, n);
    BarActsOn(p, s, n, closes[n], x);
  }

  lemma BarActsOn(p: Params, s: State, n: nat, price: real, x: Crosses)
    requires ValidParams(p) && Inv(p, s) && Inv(p, NewDay(p, s, n)) && NewDay(p, s, n).day == n / p.barsPerDay
    ensures var s' := Step(p, s, n, price, x);
      var buys := n in x.golden && s.position == 0 && Affordable(p, s.cash, price) > 0;
      var sells := n in x.death && s.position > 0 && s.trades != []
        && s.trades[|s.trades|-1].bar / p.barsPerDay < n / p.barsPerDay;
      && (s.position > 0 ==> s.trades != [] && s.trades[|s.trades|-1].side == Buy)
      && (buys ==> s'.trades == s.trades + [Trade(Buy, price, Affordable(p, s.cash, price), n)]
                   && s'.position == Affordable(p, s.cash, price))
      && (sells ==> s'.trades == s.trades + [Trade(Sell, price, s.position, n)] && s'.position == 0)
      && (!buys && !sells ==> s'.trades == s.trades && s'.position == s.position && s'.cash == s.cash)
  {
    var today := NewDay(p, s, n);
    if s.position > 0 {
      assert Open(p, s) && Open(p, today);
      SellsAll(p, today, n, price);
    }
  }

  /** What is held is sold as a whole, if it may be sold at all. */
  lemma SellsAll(p: Params, s: State, bar: nat, price: real)
    requires ValidParams(p) && Open(p, s)
    ensures TrySell(p, s, bar, price).trades
         == if s.todayBought == 0 then s.trades + [Trade(Sell, price, s.position, bar)] else s.trades
    ensures TrySell(p, s, bar, price).position == if s.todayBought == 0 then 0 else s.position
    ensures s.todayBought != 0 ==> TrySell(p, s, bar, price) == s
  {
    LotsOfLots(s.position, p.lotSize);
  }

  // ---------------------------------------------------------------- what it comes to

  /** What a trade is charged: commission on its amount with its minimum, and stamp tax on sells. */
  function Charged(p: Params, t: Trade): real {
    var amount := t.price * t.quantity as real;
    (if amount * p.commissionRate < p.commissionMin then p.commissionMin else amount * p.commissionRate)
    + if t.side == Sell then amount * p.stampTaxRate else 0.0
  }

  function AllCharged(p: Params, trades: seq<Trade>): real {
    if trades == [] then 0.0 else AllCharged(p, trades[..|trades|-1]) + Charged(p, trades[|trades|-1])
  }

  function NetShares(trades: seq<Trade>): int {
    if trades == [] then 0
    else
      var t := trades[|trades|-1];
      NetShares(trades[..|trades|-1]) + if t.side == Buy then t.quantity else -t.quantity
  }

  /** The cash and the shares are what the trades made of the initial cash. */
  predicate Accounted(p: Params, cash: real, s: State) {
    s.cash == cash + NetFlow(s.trades) - AllCharged(p, s.trades) && s.position == NetShares(s.trades)
  }

  lemma OneTradeMore(p: Params, trades: seq<Trade>, t: Trade)
    ensures NetFlow(trades + [t]) == NetFlow(trades) + Flow(t)
    ensures AllCharged(p, trades + [t]) == AllCharged(p, trades) + Charged(p, t)
    ensures NetShares(trades + [t]) == NetShares(trades) + if t.side == Buy then t.quantity else -t.quantity
  {
    assert (trades + [t])[..|trades|] == trades;
  }

  /** What a buy and a sell come to, by their amount as the loop computes it. */
  lemma BuyByAmount(p: Params, price: real, shares: int, bar: nat, amount: real)
    requires amount == shares as real * price
    ensures var t := Trade(Buy, price, shares, bar); Flow(t) - Charged(p, t) == -(amount + Commission(p, amount))
  {
    assert amount == price * shares as real;
  }

  lemma SellByAmount(p: Params, price: real, shares: int, bar: nat, amount: real)
    requires amount == shares as real * price
    ensures var t := Trade(Sell, price, shares, bar);
      Flow(t) - Charged(p, t) == amount - Commission(p, amount) - amount * p.stampTaxRate
  {
    assert amount == price * shares as real;
  }

  /** One trade changes what the accounts say by what it moves and is charged. */
  lemma TradeAccounted(p: Params, cash: real, s: State, s': State, t: Trade)
    requires Accounted(p, cash, s) && s'.trades == s.trades + [t]
    requires s'.cash == s.cash + (Flow(t) - Charged(p, t))
    requires s'.position == s.position + if t.side == Buy then t.quantity else -t.quantity
    ensures Accounted(p, cash, s')
  {
    OneTradeMore(p, s.trades, t);
  }

  function Bought(p: Params, s: State, bar: nat, price: real, shares: int): State {
    var amount := shares as real * price;
    s.(cash := s.cash - (amount + Commission(p, amount)), position := shares, todayBought := shares,
       trades := s.trades + [Trade(Buy, price, shares, bar)])
  }

  function Sold(p: Params, s: State, bar: nat, price: real, shares: int): State {
    var amount := shares as real * price;
    s.(cash := s.cash + (amount - Commission(p, amount) - amount * p.stampTaxRate), position := s.position - shares,
       trades := s.trades + [Trade(Sell, price, shares, bar)])
  }

  lemma TryBuyIs(p: Params, s: State, bar: nat, price: real) returns (shares: int)
    requires ValidParams(p)
    ensures TryBuy(p, s, bar, price) == if shares > 0 then Bought(p, s, bar, price, shares) else s
  {
    shares := Affordable(p, s.cash, price);
  }

  lemma TrySellIs(p: Params, s: State, bar: nat, price: real) returns (shares: int)
    requires ValidParams(p)
    ensures TrySell(p, s, bar, price) == if shares > 0 then Sold(p, s, bar, price, shares) else s
  {
    var sellable := s.position - s.todayBought;
    shares := if sellable > 0 then RoundToLot(sellable, p.lotSize) else 0;
  }

  lemma BuyAccounted(p: Params, cash: real, s: State, bar: nat, price: real, shares: int)
    requires Accounted(p, cash, s) && s.position == 0
    ensures Accounted(p, cash, Bought(p, s, bar, price, shares))
  {
    BuyByAmount(p, price, shares, bar, shares as real * price);
    TradeAccounted(p, cash, s, Bought(p, s, bar, price, shares), Trade(Buy, price, shares, bar));
  }

  lemma SellAccounted(p: Params, cash: real, s: State, bar: nat, price: real, shares: int)
    requires Accounted(p, cash, s)
    ensures Accounted(p, cash, Sold(p, s, bar, price, shares))
  {
    SellByAmount(p, price, shares, bar, shares as real * price);
    TradeAccounted(p, cash, s, Sold(p, s, bar, price, shares), Trade(Sell, price, shares, bar));
  }

  lemma TradesAccounted(p: Params, cash: real, s: State, bar: nat, price: real)
    requires ValidParams(p) && Accounted(p, cash, s)
    ensures s.position == 0 ==> Accounted(p, cash, TryBuy(p, s, bar, price))
    ensures Accounted(p, cash, TrySell(p, s, bar, price))
  {
    var bought := TryBuyIs(p, s, bar, price);
    var sold := TrySellIs(p, s, bar, price);
    if s.position == 0 {
      BuyAccounted(p, cash, s, bar, price, bought);
    }
    SellAccounted(p, cash, s, bar, price, sold);
  }

  lemma BarAccounted(p: Params, cash: real, s: State, bar: nat, price: real, x: Crosses)
    requires ValidParams(p) && Accounted(p, cash, s)
    ensures Accounted(p, cash, Step(p, s, bar, price, x))
  {
    TradesAccounted(p, cash, NewDay(p, s, bar), bar, price);
  }

  type Bar = (State, nat, real) -> State

  function BarOf(p: Params, x: Crosses): Bar
    requires ValidParams(p)
  {
    (s: State, n: nat, price: real) => Step(p, s, n, price, x)
  }

  /** The loop with its body as a function. */
  function Loop(bar: Bar, s: State, closes: seq<real>, n: nat): State
    requires n <= |closes|
  {
    if n == 0 then s else bar(Loop(bar, s, closes, n - 1), n - 1, closes[n-1])
  }

  lemma {:induction false} AfterIsLoop(p: Params, cash: real, closes: seq<real>, x: Crosses, n: nat)
    requires ValidParams(p) && n <= |closes|
    ensures After(p, cash, closes, x, n) == Loop(BarOf(p, x), Start(cash), closes, n)
  {
    if n > 0 {
      AfterIsLoop(p, cash, closes, x, n - 1);
    }
  }

  ghost predicate Keeps(good: State -> bool, bar: Bar) {
    forall s: State, n: nat, price: real :: good(s) ==> good(bar(s, n, price))
  }

  /** What every bar keeps, a run keeps. */
  lemma {:induction false} LoopKeeps(good: State -> bool, bar: Bar, s: State, closes: seq<real>, n: nat)
    requires n <= |closes| && Keeps(good, bar) && good(s)
    ensures good(Loop(bar, s, closes, n))
  {
    if n > 0 {
      LoopKeeps(good, bar, s, closes, n - 1);
      var before, k: nat, price := Loop(bar, s, closes, n - 1), n - 1, closes[n-1];
      assert good(before);
      assert good(bar(before, k, price));
    }
  }

  function AccountedFor(p: Params, cash: real): State -> bool {
    (s: State) => Accounted(p, cash, s)
  }

  lemma BarsKeepAccounts(p: Params, cash: real, x: Crosses)
    requires ValidParams(p)
    ensures Keeps(AccountedFor(p, cash), BarOf(p, x))
  {
    forall s, n, price | Accounted(p, cash, s) ensures Accounted(p, cash, Step(p, s, n, price, x)) {
      BarAccounted(p, cash, s, n, price, x);
    }
  }

  /** At every bar the cash is the initial cash, what the trades moved and what they were charged; the shares are the
      bought less the sold. */
  lemma EveryBarAccounted(p: Params, cash: real, closes: seq<real>, x: Crosses, n: nat)
    requires ValidParams(p) && n <= |closes|
    ensures Accounted(p, cash, After(p, cash, closes, x, n))
  {
    AfterIsLoop(p, cash, closes, x, n);
    BarsKeepAccounts(p, cash, x);
    LoopKeeps(AccountedFor(p, cash), BarOf(p, x), Start(cash), closes, n);
  }

  /** The cash and the shares that the trades made of the initial cash, at a price. */
  function AccountWorth(p: Params, cash: real, trades: seq<Trade>, price: real): real {
    cash + NetFlow(trades) - AllCharged(p, trades) + NetShares(trades) as real * price
  }

  /** The value recorded for a bar is the cash before it and the shares held then at its close. */
  lemma {:induction false} ValuesAreWorth(p: Params, cash: real, closes: seq<real>, x: Crosses, n: nat, k: nat)
    requires ValidParams(p) && k < n <= |closes|
    ensures |Values(p, cash, closes, x, n)| == n
    ensures Values(p, cash, closes, x, n)[k] == AccountWorth(p, cash, After(p, cash, closes, x, k).trades, closes[k])
  {
    if k < n - 1 {
      ValuesAreWorth(p, cash, closes, x, n - 1, k);
    } else {
      EveryBarAccounted(p, cash, closes, x, k);
      ValuesCount(p, cash, closes, x, k);
      WorthOf(p, cash, After(p, cash, closes, x, k), closes[k]);
    }
  }

  lemma WorthOf(p: Params, cash: real, s: State, price: real)
    requires Accounted(p, cash, s)
    ensures Worth(s, price) == AccountWorth(p, cash, s.trades, price)
  {
  }

  lemma {:induction false} ValuesCount(p: Params, cash: real, closes: seq<real>, x: Crosses, n: nat)
    requires ValidParams(p) && n <= |closes|
    ensures |Values(p, cash, closes, x, n)| == n
  {
    if n > 0 {
      ValuesCount(p, cash, closes, x, n - 1);
    }
  }

  // ---------------------------------------------------------------- statistics

  /** The sells among the first `n` that fetched more than the buy of the same rank cost. */
  function Winners(buys: seq<Trade>, sells: seq<Trade>, n: nat): set<nat>
    requires n <= |buys| && n <= |sells|
  {
    set k: nat | k < n && sells[k].price > buys[k].price
  }

  lemma ProfitSign(buy: Trade, sell: Trade)
    requires sell.quantity > 0
    ensures Wins(buy, sell) <==> sell.price > buy.price
  {
    SignOfProduct(sell.price - buy.price, sell.quantity as real);
  }

  lemma SignOfProduct(d: real, q: real)
    requires q > 0.0
    ensures d * q > 0.0 <==> d > 0.0
  {
    if d <= 0.0 {
      MulLe(d, 0.0, q);
    }
  }

  lemma {:induction false} WinCountIsWinners(buys: seq<Trade>, sells: seq<Trade>, n: nat)
    requires n <= |buys| && n <= |sells| && forall k :: 0 <= k < |sells| ==> sells[k].quantity > 0
    ensures WinCount(buys, sells, n) == |Winners(buys, sells, n)|
  {
    if n == 0 {
      assert Winners(buys, sells, 0) == {};
    } else {
      WinCountIsWinners(buys, sells, n - 1);
      ProfitSign(buys[n-1], sells[n-1]);
      var before := Winners(buys, sells, n - 1);
      assert Winners(buys, sells, n) == if sells[n-1].price > buys[n-1].price then before + {n - 1} else before;
    }
  }

  /** The win rate is the share of the sells that won, in per cent, and the profit factor what was won for each unit
      lost; without a loss it is what was won. */
  lemma StatsMean(wins: nat, sells: nat, profit: real, loss: real)
    requires sells > 0 && profit >= 0.0 && loss >= 0.0
    ensures WinRate(wins, sells) * sells as real == 100.0 * wins as real
    ensures loss > 0.0 ==> ProfitFactor(profit, loss) * loss == profit
    ensures loss == 0.0 ==> ProfitFactor(profit, loss) == profit
  {
    TimesBack(wins as real, sells as real);
    if loss > 0.0 {
      TimesBack(profit, loss);
    }
  }
}
