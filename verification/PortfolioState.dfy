/** The portfolio object of a backtest run, updated in place. Every method is specified by the
    operation on books that it performs. */
module PortfolioState {
  import opened Wrappers
  import opened Matcher
  import opened Portfolio

  type Update = (string, Position) -> Position

  /** Of the positions `was`, those named by the first `n` ids have been updated by `f`; `done` names them. */
  ghost predicate UpdatedTo(ids: seq<string>, was: map<string, Position>, now: map<string, Position>, f: Update,
                            n: nat, done: set<string>)
  {
    && n <= |ids|
    && (forall k :: 0 <= k < |ids| ==> ids[k] in was && (ids[k] in done <==> k < n))
    && now.Keys == was.Keys
    && (forall i :: i in now ==> now[i] == if i in done then f(i, was[i]) else was[i])
  }

  lemma UpdateNext(ids: seq<string>, was: map<string, Position>, now: map<string, Position>, f: Update, n: nat,
        done: set<string>)
    requires n < |ids| && UpdatedTo(ids, was, now, f, n, done)
    requires forall j, k :: 0 <= j < k < |ids| ==> ids[j] != ids[k]
    ensures now[ids[n]] == was[ids[n]]
    ensures UpdatedTo(ids, was, now[ids[n] := f(ids[n], was[ids[n]])], f, n + 1, done + {ids[n]})
  {
  }

  lemma AllUpdated(ids: seq<string>, was: map<string, Position>, now: map<string, Position>, f: Update,
        done: set<string>)
    requires UpdatedTo(ids, was, now, f, |ids|, done) && forall i :: i in was ==> i in ids
    ensures now == map i | i in was :: f(i, was[i])
  {
    forall i | i in now ensures i in done {
      var k :| 0 <= k < |ids| && ids[k] == i;
    }
  }

  class PortfolioState {
    var cash: real
    const initialCash: real
    var ids: seq<string>
    var positions: map<string, Position>
    var trades: seq<Trade>
    var daily: seq<DailyValue>

    ghost function View(): Book
      reads this
    {
      Book(cash, initialCash, ids, positions, trades, daily)
    }

    constructor (initialCash: real)
      ensures View() == Book(initialCash, initialCash, [], map[], [], [])
    {
      this.cash, this.initialCash := initialCash, initialCash;
      ids, positions, trades, daily := [], map[], [], [];
    }

    method GetOrCreatePosition(i: string) returns (p: Position)
      modifies this
      ensures View() == OpenSlot(old(View()), i)
      ensures i in positions && p == positions[i] == Held(old(View()), i)
    {
      if i !in positions {
        positions := positions[i := FLAT];
        ids := ids + [i];
      }
      p := positions[i];
    }

    method ApplyFill(i: string, side: Side, price: real, quantity: int,
                     commission: real, stampTax: real, time: int, signalId: string)
      modifies this
      ensures View() == Portfolio.ApplyFill(old(View()), i, side, price, quantity, commission, stampTax, time, signalId)
    {
      var p := GetOrCreatePosition(i);
      var amount := price * quantity as real;
      if side == Buy {
        p := BookBuy(p, price, quantity);
        cash := cash - (amount + commission + stampTax);
      } else {
        p := p.(quantity := p.quantity - quantity);
        cash := cash + (amount - commission - stampTax);
      }
      positions := positions[i := p];
      trades := trades + [Trade(|trades| + 1, i, side, price, quantity, commission, stampTax, time, signalId)];
      ghost var was, b := old(View()),
          Portfolio.ApplyFill(old(View()), i, side, price, quantity, commission, stampTax, time, signalId);
      assert p == if side == Buy then AfterBuy(Held(was, i), price, quantity)
          else Held(was, i).(quantity := Held(was, i).quantity - quantity);
      assert positions == was.positions[i := p] == b.positions;
      assert trades == b.trades;
      assert cash == b.cash;
    }

    /** The position after a buy: its cost averaged over the shares it then holds. */
    method BookBuy(position: Position, price: real, quantity: int) returns (p: Position)
      ensures p == AfterBuy(position, price, quantity)
    {
      p := position.(quantity := position.quantity + quantity, todayBought := position.todayBought + quantity);
      if p.quantity > 0 {
        var oldCost := p.averageCost * (p.quantity - quantity) as real;
        p := p.(averageCost := (oldCost + price * quantity as real) / p.quantity as real);
      }
    }

    method MarkPosition(position: Position, i: string, prices: map<string, real>) returns (p: Position)
      ensures p == Marked(position, i, prices)
    {
      p := position;
      if i in prices {
        p := p.(marketValue := prices[i] * p.quantity as real);
      }
    }

    method UpdateMarketValueFromPrices(prices: map<string, real>)
      requires WellFormed(View())
      modifies this`positions
      ensures View() == MarkToMarket(old(View()), prices)
    {
      ghost var f := (i: string, p: Position) => Marked(p, i, prices);
      ghost var was, done: set<string> := positions, {};
      for n := 0 to |ids|
        invariant UpdatedTo(ids, was, positions, f, n, done)
      {
        var i := ids[n];
        UpdateNext(ids, was, positions, f, n, done);
        var p := MarkPosition(positions[i], i, prices);
        assert p == f(i, was[i]);
        positions := positions[i := p];
        done := done + {i};
      }
      AllUpdated(ids, was, positions, f, done);
      assert positions == MarkToMarket(old(View()), prices).positions;
    }

    method ResetDailyState()
      requires WellFormed(View())
      modifies this`positions
      ensures View() == ResetDay(old(View()))
    {
      ghost var f := (i: string, p: Position) => p.(todayBought := 0);
      ghost var was, done: set<string> := positions, {};
      for n := 0 to |ids|
        invariant UpdatedTo(ids, was, positions, f, n, done)
      {
        var i := ids[n];
        UpdateNext(ids, was, positions, f, n, done);
        positions := positions[i := positions[i].(todayBought := 0)];
        done := done + {i};
      }
      AllUpdated(ids, was, positions, f, done);
      assert positions == ResetDay(old(View())).positions;
    }

    method TotalMarketValue() returns (mv: real)
      requires WellFormed(View())
      ensures mv == MarketValue(ids, positions)
    {
      mv := 0.0;
      for n := 0 to |ids|
        invariant mv == MarketValue(ids[..n], positions)
      {
        assert ids[..n+1][..n] == ids[..n];
        mv := mv + positions[ids[n]].marketValue;
      }
      assert ids[..|ids|] == ids;
    }

    method SnapshotDaily(date: int)
      requires WellFormed(View())
      modifies this`daily
      ensures View() == Snapshot(old(View()), date)
    {
      var mv := TotalMarketValue();
      daily := daily + [DailyValue(date, cash, mv, cash + mv)];
    }

    method UpdateStopLossTakeProfit(i: string, stopLoss: Option<real>, takeProfit: Option<real>)
      modifies this
      ensures View() == SetStops(old(View()), i, stopLoss, takeProfit)
    {
      var p := GetOrCreatePosition(i);
      if stopLoss.Some? {
        p := p.(stopLoss := stopLoss);
      }
      if takeProfit.Some? {
        p := p.(takeProfit := takeProfit);
      }
      positions := positions[i := p];
      assert positions == SetStops(old(View()), i, stopLoss, takeProfit).positions;
    }

    method ClearStopLossTakeProfit(i: string)
      modifies this
      ensures View() == ClearStops(old(View()), i)
    {
      var p := GetOrCreatePosition(i);
      positions := positions[i := p.(stopLoss := None, takeProfit := None)];
      assert positions == ClearStops(old(View()), i).positions;
    }

    /** Stop-loss triggers when `loss` holds, take-profit triggers otherwise. */
    method CheckTriggers(prices: map<string, real>, loss: bool) returns (triggered: seq<string>)
      requires WellFormed(View())
      ensures triggered == Triggered(ids, positions, prices, loss)
    {
      triggered := [];
      for n := 0 to |ids|
        invariant triggered == Triggered(ids[..n], positions, prices, loss)
      {
        var i := ids[n];
        assert ids[..n+1][..n] == ids[..n];
        if i in prices {
          if loss && positions[i].StopLossHit(prices[i]) {
            triggered := triggered + [i];
          } else if !loss && positions[i].TakeProfitHit(prices[i]) {
            triggered := triggered + [i];
          }
        }
      }
      assert ids[..|ids|] == ids;
    }
  }
}
