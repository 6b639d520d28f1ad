/** The backtest engine object. Its run is proved to compute exactly the run of module Engine. */
module BacktestEngine {
  import opened Wrappers
  import opened Bars
  import opened Matcher
  import opened Portfolio
  import opened Engine
  import opened EngineSoundness
  import PortfolioState

  datatype RunResult = AlreadyRun | Empty | Completed(daily: seq<DailyValue>, trades: seq<Trade>)

  class BacktestEngine {
    const setup: Setup
    const portfolio: PortfolioState.PortfolioState
    var prevClose: map<string, real>
    var latestPrices: map<string, real>
    var riskQueries: nat
    var hasRun: bool

    ghost function View(): Core
      reads this, portfolio
    {
      Core(portfolio.View(), prevClose, latestPrices, riskQueries)
    }

    /** An engine that has not run yet is as it was created. */
    ghost predicate Valid()
      reads this, portfolio
    {
      !hasRun ==> View() == InitialState(setup).core
    }

    constructor (setup: Setup)
      ensures Valid() && !hasRun && this.setup == setup && fresh(portfolio)
    {
      this.setup := setup;
      portfolio := new PortfolioState.PortfolioState(setup.initialCash);
      prevClose, latestPrices := map[], map[];
      riskQueries, hasRun := 0, false;
    }

    method MatchAndBook(o: Order, bar: Bar, instrument: Instrument) returns (outcome: Outcome)
      modifies this, portfolio
      ensures (View(), outcome) == Submit(setup, old(View()), o, bar, instrument)
      ensures hasRun == old(hasRun)
    {
      var p := if o.instrument in portfolio.positions then portfolio.positions[o.instrument] else FLAT;
      var last := if o.instrument in prevClose then prevClose[o.instrument] else bar.open;
      var r := MatchOrder(setup.matching, o, bar, last, instrument, p.quantity, p.todayBought, portfolio.cash);
      if r.NoFill? {
        return Rejected;
      }
      portfolio.ApplyFill(o.instrument, o.side, r.price, r.quantity, r.commission, r.stampTax, bar.start, o.signalId);
      return Executed;
    }

    method ProcessSlTp(i: string, bar: Bar, instrument: Option<Instrument>)
      modifies this, portfolio
      ensures View() == ForceSell(setup, old(View()), i, bar, instrument)
      ensures hasRun == old(hasRun)
    {
      if instrument.None? {
        return;
      }
      var p := portfolio.GetOrCreatePosition(i);
      if p.quantity <= 0 {
        return;
      }
      var outcome := MatchAndBook(SellAll(i), bar, instrument.value);
      if outcome == Executed {
        portfolio.ClearStopLossTakeProfit(i);
      }
    }

    method ProcessTriggers(ids: seq<string>, bar: Bar)
      modifies this, portfolio
      ensures View() == ForceSellEach(setup, old(View()), ids, bar, false)
      ensures hasRun == old(hasRun)
    {
      for n := 0 to |ids|
        invariant ForceSellEach(setup, View(), ids[n..], bar, false)
            == ForceSellEach(setup, old(View()), ids, bar, false)
        invariant hasRun == old(hasRun)
      {
        assert ids[n..][0] == ids[n] && ids[n..][1..] == ids[n+1..];
        ProcessSlTp(ids[n], bar, FindLast(setup.instruments, ids[n]));
      }
    }

    method ForceFlattenAll(bar: Bar)
      modifies this, portfolio
      ensures View() == FlattenAll(setup, old(View()), bar)
      ensures hasRun == old(hasRun)
    {
      var ids := portfolio.ids;
      for n := 0 to |ids|
        invariant ForceSellEach(setup, View(), ids[n..], bar, true) == FlattenAll(setup, old(View()), bar)
        invariant hasRun == old(hasRun)
      {
        assert ids[n..][0] == ids[n] && ids[n..][1..] == ids[n+1..];
        ProcessSlTp(ids[n], bar, FindFirst(setup.instruments, ids[n]));
      }
    }

    method ProcessOrder(o: Order, bar: Bar, instrument: Option<Instrument>, risk: RiskOracle) returns (outcome: Outcome)
      modifies this, portfolio
      ensures (View(), outcome) == Engine.ProcessOrder(setup, risk, old(View()), o, bar, instrument)
      ensures hasRun == old(hasRun)
    {
      if instrument.None? {
        return Skipped;
      }
      var _ := portfolio.GetOrCreatePosition(o.instrument);
      var order := o;
      if setup.enableRisk {
        var answer := risk(riskQueries);
        riskQueries := riskQueries + 1;
        match answer {
          case Allow =>
          case Reject => return Rejected;
          case Resize(quantity) =>
            if quantity.Some? {
              order := o.(quantity := quantity.value);
            }
          case Delay => return Delayed;
          case ForceFlatten =>
            ForceFlattenAll(bar);
            return FlattenedAll;
        }
      }
      outcome := MatchAndBook(order, bar, instrument.value);
    }

    method BeginDay(day: Option<int>, date: int, ghost s: State)
      requires s.core == View() && s.day == day && SoundState(setup, s)
      modifies portfolio
      ensures View() == StartDay(s, date).core
    {
      if day != Some(date) {
        if day.Some? {
          assert Sound(portfolio.View(), setup.matching.lotSize, day.value);
          MarkAndSnapshotSound(portfolio.View(), latestPrices, day.value, setup.matching.lotSize, day.value);
          portfolio.UpdateMarketValueFromPrices(latestPrices);
          portfolio.SnapshotDaily(day.value);
        } else {
          assert SoundFor(setup, portfolio.View(), 0);
        }
        portfolio.ResetDailyState();
      }
    }

    method CheckForcedExits(bar: Bar)
      requires WellFormed(portfolio.View())
      modifies this, portfolio
      ensures View() == ForcedExits(setup, old(View()), bar)
      ensures hasRun == old(hasRun)
    {
      if bar.completed {
        var losses := portfolio.CheckTriggers(latestPrices, true);
        var profits := portfolio.CheckTriggers(latestPrices, false);
        ProcessTriggers(losses, bar);
        ProcessTriggers(profits, bar);
      }
    }

    method TakeOrders(ghost s: State, bar: Bar, orders: seq<Order>, waiting: seq<Pending>, issued: nat)
      returns (buffer: seq<Pending>, emitted: nat)
      requires s.core == View() && s.buffer == waiting && s.emitted == issued
      modifies portfolio
      ensures var s' := FeedStrategy(setup, s, bar, orders);
        && View() == s'.core && buffer == s'.buffer && emitted == s'.emitted
        && s'.day == s.day && s'.attempts == s.attempts
    {
      buffer, emitted := waiting, issued;
      if FindLast(setup.instruments, bar.instrument).Some? {
        var _ := portfolio.GetOrCreatePosition(bar.instrument);
        ghost var s' := Emit(s.(core := View()), orders);
        for n := 0 to |orders|
          invariant Emit(State(View(), s.day, buffer, emitted, s.attempts), orders[n..]) == s'
        {
          var o := orders[n];
          assert orders[n..][0] == o && orders[n..][1..] == orders[n+1..];
          if o.stopLoss.Some? || o.takeProfit.Some? {
            portfolio.UpdateStopLossTakeProfit(o.instrument, o.stopLoss, o.takeProfit);
          }
          buffer := buffer + [Pending(o, 0, emitted)];
          emitted := emitted + 1;
        }
      }
    }

    method DrainBuffer(ghost s: State, bar: Bar, risk: RiskOracle, waiting: seq<Pending>)
      returns (remaining: seq<Pending>, ghost attempts: seq<Attempt>)
      requires s.core == View() && s.buffer == []
      modifies this, portfolio
      ensures var s' := Drain(setup, risk, s, waiting, bar);
        && View() == s'.core && remaining == s'.buffer && attempts == s'.attempts
        && s'.day == s.day && s'.emitted == s.emitted
      ensures hasRun == old(hasRun)
    {
      remaining, attempts := [], s.attempts;
      for n := 0 to |waiting|
        invariant Drain(setup, risk, State(View(), s.day, remaining, s.emitted, attempts), waiting[n..], bar)
          == Drain(setup, risk, s, waiting, bar)
        invariant hasRun == old(hasRun)
      {
        var p := waiting[n];
        assert waiting[n..][0] == p && waiting[n..][1..] == waiting[n+1..];
        if p.order.instrument == bar.instrument && bar.completed {
          ghost var before, answer := |portfolio.trades|, Answer(setup, risk, View(), p.order);
          var outcome := ProcessOrder(p.order, bar, FindLast(setup.instruments, p.order.instrument), risk);
          attempts := attempts + [Attempt(p.ticket, p.order, bar, answer, outcome, before, |portfolio.trades|)];
          if outcome == Delayed && p.delays < MAX_DELAY_ATTEMPTS {
            remaining := remaining + [p.(delays := p.delays + 1)];
          }
        } else {
          remaining := remaining + [p];
        }
      }
    }

    method Gather(barsByInstrument: seq<seq<Bar>>) returns (bars: seq<Bar>)
      ensures bars == SortByStart(Merge(barsByInstrument))
    {
      bars := [];
      for n := 0 to |barsByInstrument|
        invariant bars == Merge(barsByInstrument[..n])
      {
        assert barsByInstrument[..n+1][..n] == barsByInstrument[..n];
        bars := bars + barsByInstrument[n];
      }
      assert barsByInstrument[..|barsByInstrument|] == barsByInstrument;
      bars := SortByStart(bars);
    }

    /** Runs once; a second call is refused, as are an empty stream and zero prices. */
    method Run(barsByInstrument: seq<seq<Bar>>, strategy: Strategy, risk: RiskOracle) returns (r: RunResult)
      requires Valid()
      modifies this, portfolio
      ensures Valid() && hasRun
      ensures var bars := SortByStart(Merge(barsByInstrument));
        if old(hasRun) then r == AlreadyRun && View() == old(View())
        else if Refused(setup, bars) then r == Empty && View() == old(View())
        else View() == Finish(RunBars(setup, risk, strategy, bars)) &&
             r == Completed(View().book.daily, View().book.trades)
    {
      if hasRun {
        return AlreadyRun;
      }
      hasRun := true;
      var bars := Gather(barsByInstrument);
      var zeroPrice := exists k :: 0 <= k < |bars| && HasZeroPrice(bars[k]);
      if bars == [] || (setup.rejectOnBadData && zeroPrice) {
        return Empty;
      }
      SortByStartIsStable(Merge(barsByInstrument));
      forall day { EmptyBookSound(setup.initialCash, setup.matching.lotSize, day); }

      var day: Option<int> := None;
      var buffer: seq<Pending> := [];
      var emitted: nat := 0;
      ghost var attempts: seq<Attempt> := [];
      for k := 0 to |bars|
        invariant hasRun
        invariant var s := State(View(), day, buffer, emitted, attempts);
          && SoundState(setup, s)
          && (day.Some? ==> k > 0 && day.value == DateOf(bars[k-1].start))
          && RunFrom(setup, risk, strategy, s, bars, k) == RunBars(setup, risk, strategy, bars)
      {
        day, buffer, emitted, attempts := ProcessBar(day, buffer, emitted, attempts, bars[k], strategy(k), risk);
      }
      if day.Some? {
        assert Sound(portfolio.View(), setup.matching.lotSize, day.value);
        portfolio.SnapshotDaily(day.value);
      }
      return Completed(portfolio.daily, portfolio.trades);
    }

    /** One turn of the run's loop over bars. */
    method ProcessBar(day: Option<int>, waiting: seq<Pending>, issued: nat, ghost tried: seq<Attempt>,
                      bar: Bar, orders: seq<Order>, risk: RiskOracle)
      returns (day': Option<int>, buffer: seq<Pending>, emitted: nat, ghost attempts: seq<Attempt>)
      requires SoundState(setup, State(View(), day, waiting, issued, tried))
      requires day.Some? ==> day.value <= DateOf(bar.start)
      modifies this, portfolio
      ensures hasRun == old(hasRun)
      ensures day' == Some(DateOf(bar.start))
      ensures var s' := State(View(), day', buffer, emitted, attempts);
        SoundState(setup, s') && s' == Step(setup, risk, old(State(View(), day, waiting, issued, tried)), bar, orders)
    {
      ghost var s := State(View(), day, waiting, issued, tried);
      StepSound(setup, risk, s, bar, orders);
      OpenBarSound(setup, s, bar);
      day', buffer, emitted, attempts := Some(DateOf(bar.start)), waiting, issued, tried;
      BeginDay(day, DateOf(bar.start), s);
      latestPrices := latestPrices[bar.instrument := bar.close];
      assert WellFormed(portfolio.View()) by { StartDayWellFormed(setup, s, DateOf(bar.start)); }
      CheckForcedExits(bar);
      ghost var s1 := OpenBar(setup, s, bar);
      if bar.instrument in prevClose {
        buffer, emitted := TakeOrders(s1, bar, orders, buffer, emitted);
        ghost var s2 := FeedStrategy(setup, s1, bar, orders);
        buffer, attempts := DrainBuffer(s2.(buffer := []), bar, risk, buffer);
      }
      prevClose := prevClose[bar.instrument := bar.close];
    }
  }

  lemma StartDayWellFormed(setup: Setup, s: State, date: int)
    requires SoundState(setup, s) && (s.day.Some? ==> s.day.value <= date)
    ensures WellFormed(StartDay(s, date).core.book)
  {
    if s.day.None? {
      assert SoundFor(setup, s.core.book, 0);
    }
  }
}
