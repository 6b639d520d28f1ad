/** Settlement, replay and cash hold at every point of every backtest run. */
module EngineSoundness {
  import opened Arithmetic
  import opened Wrappers
  import opened Bars
  import opened Matcher
  import opened Portfolio
  import opened Engine

  ghost predicate SoundFor(setup: Setup, b: Book, day: int) {
    b.initialCash == setup.initialCash && Sound(b, setup.matching.lotSize, day)
  }

  /** The book is sound for the day in progress; before the first bar, for any day. */
  ghost predicate SoundState(setup: Setup, s: State) {
    && (s.day.Some? ==> SoundFor(setup, s.core.book, s.day.value))
    && (s.day.None? ==> forall d :: SoundFor(setup, s.core.book, d))
  }

  /** Whatever the matcher fills may be booked. */
  lemma MatchedFillAllowed(setup: Setup, c: Core, o: Order, bar: Bar, instrument: Instrument)
    ensures var r := Execute(setup, c, o, bar, instrument);
      r.Fill? ==> FillAllowed(c.book, setup.matching.lotSize, o.instrument, o.side, r.price, r.quantity, r.stampTax)
  {
    var p := Held(c.book, o.instrument);
    var lot := setup.matching.lotSize;
    MultipleDivides(1, lot);
    FillIsGreatestLot(setup.matching, o, bar, PrevClose(c, o.instrument, bar), instrument, p.quantity, p.todayBought,
      c.book.cash, lot);
  }

  lemma SubmitSound(setup: Setup, c: Core, o: Order, bar: Bar, instrument: Instrument, day: int)
    requires SoundFor(setup, c.book, day) && DateOf(bar.start) == day
    ensures SoundFor(setup, Submit(setup, c, o, bar, instrument).0.book, day)
  {
    var r := Execute(setup, c, o, bar, instrument);
    MatchedFillAllowed(setup, c, o, bar, instrument);
    if r.Fill? {
      ApplyFillSound(c.book, setup.matching.lotSize, day, o.instrument, o.side, r.price, r.quantity,
                     r.commission, r.stampTax, bar.start, o.signalId);
    }
  }

  lemma ForceSellSound(setup: Setup, c: Core, i: string, bar: Bar, instrument: Option<Instrument>, day: int)
    requires SoundFor(setup, c.book, day) && DateOf(bar.start) == day
    ensures SoundFor(setup, ForceSell(setup, c, i, bar, instrument).book, day)
  {
    OpenSlotSound(c.book, i, setup.matching.lotSize, day);
    var c1 := c.(book := OpenSlot(c.book, i));
    if instrument.Some? {
      SubmitSound(setup, c1, SellAll(i), bar, instrument.value, day);
      SetStopsSound(Submit(setup, c1, SellAll(i), bar, instrument.value).0.book, i, None, None, setup.matching.lotSize,
        day);
    }
  }

  lemma {:induction false} ForceSellEachSound(setup: Setup, c: Core, ids: seq<string>, bar: Bar, first: bool, day: int)
    requires SoundFor(setup, c.book, day) && DateOf(bar.start) == day
    ensures SoundFor(setup, ForceSellEach(setup, c, ids, bar, first).book, day)
    decreases |ids|
  {
    if ids != [] {
      var instrument := if first then FindFirst(setup.instruments, ids[0]) else FindLast(setup.instruments, ids[0]);
      ForceSellSound(setup, c, ids[0], bar, instrument, day);
      ForceSellEachSound(setup, ForceSell(setup, c, ids[0], bar, instrument), ids[1..], bar, first, day);
    }
  }

  lemma ProcessOrderSound(setup: Setup, risk: RiskOracle, c: Core, o: Order, bar: Bar, instrument: Option<Instrument>,
        day: int)
    requires SoundFor(setup, c.book, day) && DateOf(bar.start) == day
    ensures SoundFor(setup, ProcessOrder(setup, risk, c, o, bar, instrument).0.book, day)
  {
    OpenSlotSound(c.book, o.instrument, setup.matching.lotSize, day);
    var c1 := c.(book := OpenSlot(c.book, o.instrument));
    var c2 := c1.(risks := c.risks + 1);
    if instrument.Some? {
      if !setup.enableRisk {
        SubmitSound(setup, c1, o, bar, instrument.value, day);
      } else {
        match risk(c.risks)
        case Allow => SubmitSound(setup, c2, o, bar, instrument.value, day);
        case Resize(q) =>
          SubmitSound(setup, c2, if q.Some? then o.(quantity := q.value) else o, bar, instrument.value, day);
        case ForceFlatten => ForceSellEachSound(setup, c2, c2.book.ids, bar, true, day);
        case _ =>
      }
    }
  }

  lemma {:induction false} DrainSound(setup: Setup, risk: RiskOracle, s: State, todo: seq<Pending>, bar: Bar)
    requires SoundState(setup, s) && s.day == Some(DateOf(bar.start))
    ensures SoundState(setup, Drain(setup, risk, s, todo, bar)) && Drain(setup, risk, s, todo, bar).day == s.day
    decreases |todo|
  {
    if todo != [] {
      var p := todo[0];
      if Eligible(p, bar) {
        ProcessOrderSound(setup, risk, s.core, p.order, bar, FindLast(setup.instruments, p.order.instrument),
          s.day.value);
        DrainSound(setup, risk, AfterAttempt(setup, risk, s, p, bar), todo[1..], bar);
      } else {
        DrainSound(setup, risk, s.(buffer := s.buffer + [p]), todo[1..], bar);
      }
    }
  }

  lemma {:induction false} EmitSound(setup: Setup, s: State, orders: seq<Order>)
    requires SoundState(setup, s) && s.day.Some?
    ensures SoundState(setup, Emit(s, orders)) && Emit(s, orders).day == s.day
    decreases |orders|
  {
    if orders != [] {
      var o := orders[0];
      SetStopsSound(s.core.book, o.instrument, o.stopLoss, o.takeProfit, setup.matching.lotSize, s.day.value);
      EmitSound(setup, EmitOne(s, o), orders[1..]);
    }
  }

  /** Closing the day before, if any, and resetting for the day of the bar. */
  lemma StartDaySound(setup: Setup, s: State, date: int)
    requires SoundState(setup, s) && (s.day.Some? ==> s.day.value <= date)
    ensures SoundState(setup, StartDay(s, date)) && StartDay(s, date).day == Some(date)
  {
    var lot := setup.matching.lotSize;
    if s.day != Some(date) {
      if s.day.Some? {
        var marked := MarkToMarket(s.core.book, s.core.latest);
        MarkAndSnapshotSound(s.core.book, s.core.latest, s.day.value, lot, s.day.value);
        MarkAndSnapshotSound(marked, s.core.latest, s.day.value, lot, s.day.value);
        ResetDaySound(Snapshot(marked, s.day.value), lot, s.day.value, date);
      } else {
        assert SoundFor(setup, s.core.book, date - 1);
        ResetDaySound(s.core.book, lot, date - 1, date);
      }
    }
  }

  lemma OpenBarSound(setup: Setup, s: State, bar: Bar)
    requires SoundState(setup, s) && (s.day.Some? ==> s.day.value <= DateOf(bar.start))
    ensures SoundState(setup, OpenBar(setup, s, bar)) && OpenBar(setup, s, bar).day == Some(DateOf(bar.start))
  {
    var date := DateOf(bar.start);
    var s1 := StartDay(s, date);
    StartDaySound(setup, s, date);
    if bar.completed {
      var c := s1.core.(latest := s1.core.latest[bar.instrument := bar.close]);
      var losses := Triggered(c.book.ids, c.book.positions, c.latest, true);
      var profits := Triggered(c.book.ids, c.book.positions, c.latest, false);
      ForceSellEachSound(setup, c, losses, bar, false, date);
      ForceSellEachSound(setup, ForceSellEach(setup, c, losses, bar, false), profits, bar, false, date);
    }
  }

  /** One bar, no earlier than the day in progress, keeps the state sound. */
  lemma StepSound(setup: Setup, risk: RiskOracle, s: State, bar: Bar, orders: seq<Order>)
    requires SoundState(setup, s) && (s.day.Some? ==> s.day.value <= DateOf(bar.start))
    ensures SoundState(setup, Step(setup, risk, s, bar, orders))
    ensures Step(setup, risk, s, bar, orders).day == Some(DateOf(bar.start))
  {
    var s1 := OpenBar(setup, s, bar);
    OpenBarSound(setup, s, bar);
    if bar.instrument in s1.core.prevClose {
      if FindLast(setup.instruments, bar.instrument).Some? {
        OpenSlotSound(s1.core.book, bar.instrument, setup.matching.lotSize, s1.day.value);
        EmitSound(setup, s1.(core := s1.core.(book := OpenSlot(s1.core.book, bar.instrument))), orders);
      }
      var s2 := FeedStrategy(setup, s1, bar, orders);
      DrainSound(setup, risk, s2.(buffer := []), s2.buffer, bar);
    }
  }

  lemma {:induction false} RunFromSound(setup: Setup, risk: RiskOracle, strategy: Strategy, s: State, bars: seq<Bar>,
        k: nat)
    requires k <= |bars| && Chronological(bars) && SoundState(setup, s)
    requires s.day.Some? ==> forall j :: k <= j < |bars| ==> s.day.value <= DateOf(bars[j].start)
    ensures SoundState(setup, RunFrom(setup, risk, strategy, s, bars, k))
    decreases |bars| - k
  {
    if k < |bars| {
      StepSound(setup, risk, s, bars[k], strategy(k));
      RunFromSound(setup, risk, strategy, Step(setup, risk, s, bars[k], strategy(k)), bars, k + 1);
    }
  }

  /** For every strategy, risk configuration and chronological bar stream, hence also after any number
      of bars of a longer one: no instrument ever sells more on a day than it opened that day with;
      holdings are whole lots that contain today's buys; cash, holdings and average costs are those
      the trade log accounts for; and every buy was covered by the cash before it. */
  lemma EveryRunSound(setup: Setup, risk: RiskOracle, strategy: Strategy, bars: seq<Bar>, i: string, d: int)
    requires Chronological(bars)
    ensures var b := RunBars(setup, risk, strategy, bars).core.book;
      && TradedOn(b.trades, i, d, Sell) <= HoldingAtOpen(b.trades, i, d)
      && 0 <= Held(b, i).todayBought <= Held(b, i).quantity && LotMultiple(Held(b, i).quantity, setup.matching.lotSize)
      && b.cash == setup.initialCash + NetCash(b.trades)
      && Held(b, i).quantity == NetShares(b.trades, i)
      && CostInSpan(Held(b, i), BuySpan(b.trades, i))
      && BuysCovered(b.trades, setup.initialCash)
  {
    forall day { EmptyBookSound(setup.initialCash, setup.matching.lotSize, day); }
    RunFromSound(setup, risk, strategy, InitialState(setup), bars, 0);
    var s := RunBars(setup, risk, strategy, bars);
    var day := s.day.GetOr(0);
    assert SoundFor(setup, s.core.book, day);
    NeverOversells(s.core.book, setup.matching.lotSize, day, i, d);
  }

  /** In every run no buy starts from a deficit or takes cash below minus its own commission; and if
      every sale so far brought in at least its costs, cash after the first `n` trades has never
      fallen below minus the largest commission paid on a buy. */
  lemma EveryRunCashFloor(setup: Setup, risk: RiskOracle, strategy: Strategy, bars: seq<Bar>, n: nat)
    requires Chronological(bars) && setup.initialCash >= 0.0
    requires n <= |RunBars(setup, risk, strategy, bars).core.book.trades|
    ensures var ts := RunBars(setup, risk, strategy, bars).core.book.trades[..n];
      && (forall k :: 0 <= k < n && ts[k].side == Buy ==>
            setup.initialCash + NetCash(ts[..k]) > 0.0 && setup.initialCash + NetCash(ts[..k+1]) >= -ts[k].commission)
      && ((forall k :: 0 <= k < n && ts[k].side == Sell ==> ts[k].Cash() >= 0.0) ==>
            setup.initialCash + NetCash(ts) >= -LargestBuyCommission(ts))
  {
    EveryRunSound(setup, risk, strategy, bars, "", 0);
    FloorOfPrefix(RunBars(setup, risk, strategy, bars).core.book.trades, setup.initialCash, n);
  }

  lemma FloorOfPrefix(all: seq<Trade>, initialCash: real, n: nat)
    requires n <= |all| && initialCash >= 0.0 && BuysCovered(all, initialCash)
    ensures forall k :: 0 <= k < n && all[..n][k].side == Buy ==>
      initialCash + NetCash(all[..n][..k]) > 0.0 && initialCash + NetCash(all[..n][..k+1]) >= -all[..n][k].commission
    ensures (forall k :: 0 <= k < n && all[..n][k].side == Sell ==> all[..n][k].Cash() >= 0.0)
      ==> initialCash + NetCash(all[..n]) >= -LargestBuyCommission(all[..n])
  {
    var ts := all[..n];
    forall k | 0 <= k < n ensures ts[..k] == all[..k] {}
    assert BuysCovered(ts, initialCash);
    forall k | 0 <= k < n && ts[k].side == Buy
      ensures initialCash + NetCash(ts[..k]) > 0.0 && initialCash + NetCash(ts[..k+1]) >= -ts[k].commission
    {
      BuyFloor(ts, initialCash, k);
    }
    if forall k :: 0 <= k < n && ts[k].side == Sell ==> ts[k].Cash() >= 0.0 {
      CashFloor(ts, initialCash);
    }
  }
}
