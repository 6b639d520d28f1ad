/** When the orders of a backtest run are tried, for how long they wait, and what taking them up does to levels. */
module OrderTiming {
  import opened Wrappers
  import opened Bars
  import opened Matcher
  import opened Portfolio
  import opened Engine
  import opened OrderLedger
  import opened RunAccounts

  /** At every point of every run an order emitted so far is waiting exactly if all attempts at it were delayed and
      there were fewer than four. */
  lemma WaitsExactlyWhen(setup: Setup, risk: RiskOracle, strategy: Strategy, bars: seq<Bar>, t: nat)
    ensures var s := RunBars(setup, risk, strategy, bars); var h := Tries(s.attempts, t);
      t < s.emitted ==>
        (Waiting(s.buffer, t) <==> |h| < 4 && forall j :: 0 <= j < |h| ==> h[j] == Delayed)
  {
    RunFromAccounted(setup, risk, strategy, InitialState(setup), bars, 0);
    var s := RunBars(setup, risk, strategy, bars);
    if Waiting(s.buffer, t) {
      var k :| 0 <= k < |s.buffer| && s.buffer[k].ticket == t;
      assert WaitsWith(s.attempts, s.buffer[k]);
    }
  }

  /** One of the attempts from the n-th on was at this order, on this bar, and delayed. */
  ghost predicate DelayedSince(attempts: seq<Attempt>, n: nat, p: Pending, bar: Bar) {
    exists k :: n <= k < |attempts| && attempts[k].ticket == p.ticket && attempts[k].bar == bar
      && attempts[k].outcome == Delayed
  }

  /** The bar lets this order be tried: it is completed and of its instrument. */
  predicate Calls(bar: Bar, p: Pending) {
    bar.completed && bar.instrument == p.order.instrument
  }

  lemma AttemptIsOn(setup: Setup, risk: RiskOracle, s: State, p: Pending, bar: Bar)
    ensures var s' := AfterAttempt(setup, risk, s, p, bar);
      && |s'.attempts| == |s.attempts| + 1 && s'.attempts[..|s.attempts|] == s.attempts
      && s'.attempts[|s.attempts|].bar == bar && s'.attempts[|s.attempts|].ticket == p.ticket
      && s'.buffer == (if s'.attempts[|s.attempts|].outcome == Delayed && p.delays < MAX_DELAY_ATTEMPTS
                       then s.buffer + [p.(delays := p.delays + 1)] else s.buffer)
  {
  }

  lemma {:induction false} DrainTries(setup: Setup, risk: RiskOracle, s: State, todo: seq<Pending>, bar: Bar, n: nat)
    requires n <= |s.attempts|
    requires forall p :: p in s.buffer && Calls(bar, p) ==> DelayedSince(s.attempts, n, p, bar)
    ensures var s' := Drain(setup, risk, s, todo, bar);
      && s.attempts <= s'.attempts
      && (forall p :: p in s'.buffer && Calls(bar, p) ==> DelayedSince(s'.attempts, n, p, bar))
      && (forall k :: |s.attempts| <= k < |s'.attempts| ==> s'.attempts[k].bar == bar)
      && (forall p :: p in s.buffer ==> p in s'.buffer)
      && (forall p :: p in todo && !Calls(bar, p) ==> p in s'.buffer)
    decreases |todo|
  {
    if todo != [] {
      var p := todo[0];
      if Eligible(p, bar) {
        var s1 := AfterAttempt(setup, risk, s, p, bar);
        AttemptIsOn(setup, risk, s, p, bar);
        forall q | q in s1.buffer && Calls(bar, q) ensures DelayedSince(s1.attempts, n, q, bar) {
          if q in s.buffer {
            SinceGrows(s.attempts, s1.attempts, n, q, bar);
          } else {
            assert s1.attempts[|s.attempts|].ticket == q.ticket;
          }
        }
        DrainTries(setup, risk, s1, todo[1..], bar, n);
      } else {
        DrainTries(setup, risk, s.(buffer := s.buffer + [p]), todo[1..], bar, n);
      }
    }
  }

  lemma SinceGrows(attempts: seq<Attempt>, attempts': seq<Attempt>, n: nat, p: Pending, bar: Bar)
    requires DelayedSince(attempts, n, p, bar) && attempts <= attempts'
    ensures DelayedSince(attempts', n, p, bar)
  {
    var k :| n <= k < |attempts| && attempts[k].ticket == p.ticket && attempts[k].bar == bar
      && attempts[k].outcome == Delayed;
    assert attempts'[k] == attempts[k];
  }

  /** Nothing waits in vain: on every bar of a run but the first of its instrument, every order that goes on waiting
      was tried on that bar and delayed, if the bar is completed and of its instrument; orders the bar does not call
      wait on. Whatever is tried is tried on that bar. */
  lemma TriedOnEveryBar(setup: Setup, risk: RiskOracle, strategy: Strategy, bars: seq<Bar>)
    requires bars != [] && LastClose(bars[..|bars|-1], bars[|bars|-1].instrument).Some?
    ensures var bar := bars[|bars|-1];
      var s, s' := RunBars(setup, risk, strategy, bars[..|bars|-1]), RunBars(setup, risk, strategy, bars);
      && s.attempts <= s'.attempts
      && (forall p :: p in s'.buffer && Calls(bar, p) ==> DelayedSince(s'.attempts, |s.attempts|, p, bar))
      && (forall k :: |s.attempts| <= k < |s'.attempts| ==> s'.attempts[k].bar == bar)
      && (forall p :: p in s.buffer && !Calls(bar, p) ==> p in s'.buffer)
  {
    var front, bar := bars[..|bars|-1], bars[|bars|-1];
    RunNext(setup, risk, strategy, bars);
    RunGoesByLastClose(setup, risk, strategy, front);
    StepTries(setup, risk, RunBars(setup, risk, strategy, front), bar, strategy(|front|));
  }

  lemma StepTries(setup: Setup, risk: RiskOracle, s: State, bar: Bar, orders: seq<Order>)
    requires bar.instrument in s.core.prevClose
    ensures var s' := Step(setup, risk, s, bar, orders);
      && s.attempts <= s'.attempts
      && (forall p :: p in s'.buffer && Calls(bar, p) ==> DelayedSince(s'.attempts, |s.attempts|, p, bar))
      && (forall k :: |s.attempts| <= k < |s'.attempts| ==> s'.attempts[k].bar == bar)
      && (forall p :: p in s.buffer && !Calls(bar, p) ==> p in s'.buffer)
  {
    var s1 := OpenBar(setup, s, bar);
    OpenBarPrices(setup, s, bar);
    assert s1.attempts == s.attempts && s1.buffer == s.buffer;
    var s2 := FeedStrategy(setup, s1, bar, orders);
    if FindLast(setup.instruments, bar.instrument).Some? {
      EmitKeeps(s1.(core := s1.core.(book := OpenSlot(s1.core.book, bar.instrument))), orders);
    }
    assert s2.attempts == s.attempts && s.buffer <= s2.buffer;
    DrainTries(setup, risk, s2.(buffer := []), s2.buffer, bar, |s.attempts|);
  }

  lemma {:induction false} EmitKeeps(s: State, orders: seq<Order>)
    ensures Emit(s, orders).attempts == s.attempts && s.buffer <= Emit(s, orders).buffer
    decreases |orders|
  {
    if orders != [] {
      EmitKeeps(EmitOne(s, orders[0]), orders[1..]);
    }
  }

  // ---------------------------------------------------------------- levels

  /** The last stop-loss (or take-profit) that the orders give for an instrument. */
  function LastLevel(orders: seq<Order>, i: string, loss: bool): Option<real> {
    if orders == [] then None
    else
      var o := orders[|orders|-1];
      var level := if loss then o.stopLoss else o.takeProfit;
      if o.instrument == i && level.Some? then level else LastLevel(orders[..|orders|-1], i, loss)
  }

  lemma {:induction false} LastLevelAfter(o: Order, orders: seq<Order>, i: string, loss: bool)
    ensures LastLevel([o] + orders, i, loss)
         == if LastLevel(orders, i, loss).Some? then LastLevel(orders, i, loss) else LastLevel([o], i, loss)
  {
    if orders == [] {
      assert [o] + orders == [o];
    } else {
      var all := [o] + orders;
      assert all[..|all|-1] == [o] + orders[..|orders|-1];
      LastLevelAfter(o, orders[..|orders|-1], i, loss);
    }
  }

  lemma OneLevel(s: State, o: Order, i: string)
    ensures var p, p' := Held(s.core.book, i), Held(EmitOne(s, o).core.book, i);
      && p'.stopLoss == (if LastLevel([o], i, true).Some? then LastLevel([o], i, true) else p.stopLoss)
      && p'.takeProfit == (if LastLevel([o], i, false).Some? then LastLevel([o], i, false) else p.takeProfit)
      && p'.quantity == p.quantity
  {
    assert [o][..0] == [];
  }

  /** Taking up the orders of a bar gives each instrument the last stop-loss and the last take-profit named for it,
      keeps a level where none is named, and numbers the orders in turn. */
  lemma {:induction false} LevelsAreLastGiven(s: State, orders: seq<Order>, i: string)
    ensures var s' := Emit(s, orders);
      var p, p', loss, profit :=
          Held(s.core.book, i), Held(s'.core.book, i), LastLevel(orders, i, true), LastLevel(orders, i, false);
      && p'.stopLoss == (if loss.Some? then loss else p.stopLoss)
      && p'.takeProfit == (if profit.Some? then profit else p.takeProfit)
      && p'.quantity == p.quantity
    ensures var s' := Emit(s, orders);
      && s'.emitted == s.emitted + |orders| && |s'.buffer| == |s.buffer| + |orders|
      && forall k :: 0 <= k < |orders| ==> s'.buffer[|s.buffer| + k] == Pending(orders[k], 0, s.emitted + k)
    decreases |orders|
  {
    if orders != [] {
      var s1 := EmitOne(s, orders[0]);
      OneLevel(s, orders[0], i);
      LevelsAreLastGiven(s1, orders[1..], i);
      assert [orders[0]] + orders[1..] == orders;
      LastLevelAfter(orders[0], orders[1..], i, true);
      LastLevelAfter(orders[0], orders[1..], i, false);
      EmitKeeps(s1, orders[1..]);
      assert Emit(s, orders) == Emit(s1, orders[1..]);
      var s' := Emit(s, orders);
      assert s'.buffer[|s.buffer|] == s1.buffer[|s.buffer|];
      forall k | 0 < k < |orders| ensures s'.buffer[|s.buffer| + k] == Pending(orders[k], 0, s.emitted + k) {
        assert orders[1..][k-1] == orders[k];
        assert s'.buffer[|s1.buffer| + (k - 1)] == Pending(orders[1..][k-1], 0, s1.emitted + (k - 1));
      }
    }
  }

  // ---------------------------------------------------------------- what goes into a run

  /** The merged stream has the bars of every instrument, together and in their order. */
  lemma {:induction false} MergeHolds(barsByInstrument: seq<seq<Bar>>, k: nat)
    requires k < |barsByInstrument|
    ensures Merge(barsByInstrument)
         == Merge(barsByInstrument[..k]) + barsByInstrument[k] + Merge(barsByInstrument[k+1..])
  {
    var n := |barsByInstrument| - 1;
    var front := barsByInstrument[..n];
    if k < n {
      MergeHolds(front, k);
      assert front[..k] == barsByInstrument[..k];
      var tail := barsByInstrument[k+1..];
      assert tail[..|tail|-1] == front[k+1..] && tail[|tail|-1] == barsByInstrument[n];
    } else {
      assert barsByInstrument[k+1..] == [];
    }
  }

  /** A run is refused exactly without bars, or, if bad data is to be refused, with a price of nought. */
  lemma RefusedExactlyWhen(setup: Setup, bars: seq<Bar>)
    ensures Refused(setup, bars) <==>
      || |bars| == 0
      || (setup.rejectOnBadData
          && exists b :: b in bars && (b.open == 0.0 || b.high == 0.0 || b.low == 0.0 || b.close == 0.0))
  {
    if b :| b in bars && (b.open == 0.0 || b.high == 0.0 || b.low == 0.0 || b.close == 0.0) {
      var k :| 0 <= k < |bars| && bars[k] == b;
      assert HasZeroPrice(bars[k]);
    }
  }

  /** The last day's row is added when the run is over, at the marks as they stand, and nothing else changes. */
  lemma FinalRow(s: State)
    requires s.day.Some?
    ensures var b, b' := s.core.book, Finish(s).book;
      && |b'.daily| == |b.daily| + 1 && b'.daily[..|b.daily|] == b.daily
      && b'.daily[|b.daily|].date == s.day.value && b'.daily[|b.daily|].cash == b.cash
      && b'.daily[|b.daily|].totalAsset == b.cash + b'.daily[|b.daily|].marketValue
      && b'.cash == b.cash && b'.trades == b.trades && b'.positions == b.positions
  {
  }
}
