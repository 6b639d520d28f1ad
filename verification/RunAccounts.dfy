/** What a backtest run does with the answers of risk, with triggered levels and with prices, in terms of what goes
    into it and of its trade log. */
module RunAccounts {
  import opened Wrappers
  import opened Bars
  import opened Matcher
  import opened Portfolio
  import opened Engine
  import opened EngineSoundness

  // ---------------------------------------------------------------- answers of risk

  /** Nothing was traded: cash, log and holdings are as before. */
  ghost predicate NothingTraded(b: Book, b': Book) {
    b'.cash == b.cash && b'.trades == b.trades && forall i :: Held(b', i) == Held(b, i)
  }

  lemma {:induction false} ForceSellAsksNobody(setup: Setup, c: Core, ids: seq<string>, bar: Bar, first: bool)
    ensures ForceSellEach(setup, c, ids, bar, first).risks == c.risks
    decreases |ids|
  {
    if ids != [] {
      var instrument := if first then FindFirst(setup.instruments, ids[0]) else FindLast(setup.instruments, ids[0]);
      ForceSellAsksNobody(setup, ForceSell(setup, c, ids[0], bar, instrument), ids[1..], bar, first);
    }
  }

  /** Each order is asked about once. A rejection and a delay trade nothing. An order that is allowed, or resized,
      fares as that order fares without risk; a resize without a quantity is an allowance. */
  lemma {:induction false} AnswerDecides(setup: Setup, risk: RiskOracle, c: Core, o: Order, bar: Bar,
        instrument: Option<Instrument>)
    requires instrument.Some? && setup.enableRisk
    ensures var (c', outcome) := ProcessOrder(setup, risk, c, o, bar, instrument);
      var free := setup.(enableRisk := false);
      c'.risks == c.risks + 1 &&
      match risk(c.risks)
      case Reject => outcome == Rejected && NothingTraded(c.book, c'.book)
      case Delay => outcome == Delayed && NothingTraded(c.book, c'.book)
      case ForceFlatten => outcome == FlattenedAll
      case Allow =>
        var (d, free') := ProcessOrder(free, risk, c, o, bar, instrument); outcome == free' && c'.book == d.book
      case Resize(None) =>
        var (d, free') := ProcessOrder(free, risk, c, o, bar, instrument); outcome == free' && c'.book == d.book
      case Resize(Some(q)) =>
        var (d, free') := ProcessOrder(free, risk, c, o.(quantity := q), bar, instrument);
        outcome == free' && c'.book == d.book
  {
    if risk(c.risks).ForceFlatten? {
      var c1 := c.(book := OpenSlot(c.book, o.instrument), risks := c.risks + 1);
      ForceSellAsksNobody(setup, c1, c1.book.ids, bar, true);
    }
  }

  /** Without risk an order executes exactly if it can be traded at the bar and a positive whole number of lots fits;
      otherwise it is rejected and nothing is traded. */
  lemma {:induction false} ExecutedExactlyWhen(setup: Setup, risk: RiskOracle, c: Core, o: Order, bar: Bar,
        instrument: Instrument)
    requires !setup.enableRisk
    ensures var (c', outcome) := ProcessOrder(setup, risk, c, o, bar, Some(instrument));
      var p := Held(c.book, o.instrument);
      && (outcome == Executed || (outcome == Rejected && NothingTraded(c.book, c'.book)))
      && c'.risks == c.risks
      && (outcome == Executed <==>
            && Tradeable(setup.matching, o, bar,
                 if o.instrument in c.prevClose then c.prevClose[o.instrument] else bar.open, instrument)
            && exists n :: n > 0 && LotMultiple(n, setup.matching.lotSize)
                 && Fits(setup.matching, o, bar, p.quantity, p.todayBought, c.book.cash, n))
  {
    var p, last, lot := Held(c.book, o.instrument), PrevClose(c, o.instrument, bar), setup.matching.lotSize;
    var r := MatchOrder(setup.matching, o, bar, last, instrument, p.quantity, p.todayBought, c.book.cash);
    assert LotMultiple(lot, lot);
    FillIsGreatestLot(setup.matching, o, bar, last, instrument, p.quantity, p.todayBought, c.book.cash, lot);
    forall n | n > 0 && LotMultiple(n, lot) && Tradeable(setup.matching, o, bar, last, instrument)
      && Fits(setup.matching, o, bar, p.quantity, p.todayBought, c.book.cash, n)
      ensures r.Fill?
    {
      FillIsGreatestLot(setup.matching, o, bar, last, instrument, p.quantity, p.todayBought, c.book.cash, n);
    }
  }

  /** Nothing was ever traded. */
  ghost predicate Idle(setup: Setup, b: Book) {
    b.cash == setup.initialCash && b.trades == [] && forall i :: Held(b, i).quantity == 0
  }

  lemma {:induction false} IdleForceSell(setup: Setup, c: Core, ids: seq<string>, bar: Bar, first: bool)
    requires Idle(setup, c.book)
    ensures Idle(setup, ForceSellEach(setup, c, ids, bar, first).book)
    decreases |ids|
  {
    if ids != [] {
      var instrument := if first then FindFirst(setup.instruments, ids[0]) else FindLast(setup.instruments, ids[0]);
      var c1 := ForceSell(setup, c, ids[0], bar, instrument);
      assert forall i :: Held(c1.book, i).quantity == Held(c.book, i).quantity;
      IdleForceSell(setup, c1, ids[1..], bar, first);
    }
  }

  /** Risk is on and never lets an order through. */
  ghost predicate Forbids(setup: Setup, risk: RiskOracle) {
    setup.enableRisk && forall n :: risk(n).Reject? || risk(n).Delay?
  }

  lemma {:induction false} IdleDrain(setup: Setup, risk: RiskOracle, s: State, todo: seq<Pending>, bar: Bar)
    requires Forbids(setup, risk) && Idle(setup, s.core.book)
    ensures Idle(setup, Drain(setup, risk, s, todo, bar).core.book)
    decreases |todo|
  {
    if todo != [] {
      var p := todo[0];
      if Eligible(p, bar) {
        var s1 := AfterAttempt(setup, risk, s, p, bar);
        var instrument := FindLast(setup.instruments, p.order.instrument);
        if instrument.Some? {
          AnswerDecides(setup, risk, s.core, p.order, bar, instrument);
          assert risk(s.core.risks).Reject? || risk(s.core.risks).Delay?;
        }
        IdleDrain(setup, risk, s1, todo[1..], bar);
      } else {
        IdleDrain(setup, risk, s.(buffer := s.buffer + [p]), todo[1..], bar);
      }
    }
  }

  lemma {:induction false} IdleEmit(setup: Setup, s: State, orders: seq<Order>)
    requires Idle(setup, s.core.book)
    ensures Idle(setup, Emit(s, orders).core.book)
    decreases |orders|
  {
    if orders != [] {
      assert forall i :: Held(EmitOne(s, orders[0]).core.book, i).quantity == Held(s.core.book, i).quantity;
      IdleEmit(setup, EmitOne(s, orders[0]), orders[1..]);
    }
  }

  lemma {:induction false} IdleStartDay(setup: Setup, s: State, date: int)
    requires Idle(setup, s.core.book)
    ensures Idle(setup, StartDay(s, date).core.book)
  {
    var s' := StartDay(s, date);
    assert forall i :: Held(s'.core.book, i).quantity == Held(s.core.book, i).quantity;
  }

  lemma {:induction false} IdleOpenBar(setup: Setup, s: State, bar: Bar)
    requires Idle(setup, s.core.book)
    ensures Idle(setup, OpenBar(setup, s, bar).core.book)
  {
    var s1 := StartDay(s, DateOf(bar.start));
    IdleStartDay(setup, s, DateOf(bar.start));
    var c := s1.core.(latest := s1.core.latest[bar.instrument := bar.close]);
    var losses := Triggered(c.book.ids, c.book.positions, c.latest, true);
    var profits := Triggered(c.book.ids, c.book.positions, c.latest, false);
    IdleForceSell(setup, c, losses, bar, false);
    IdleForceSell(setup, ForceSellEach(setup, c, losses, bar, false), profits, bar, false);
  }

  lemma {:induction false} IdleStep(setup: Setup, risk: RiskOracle, s: State, bar: Bar, orders: seq<Order>)
    requires Forbids(setup, risk) && Idle(setup, s.core.book)
    ensures Idle(setup, Step(setup, risk, s, bar, orders).core.book)
  {
    var s1 := OpenBar(setup, s, bar);
    IdleOpenBar(setup, s, bar);
    if bar.instrument in s1.core.prevClose {
      var ready := s1.(core := s1.core.(book := OpenSlot(s1.core.book, bar.instrument)));
      assert forall i :: Held(ready.core.book, i) == Held(s1.core.book, i);
      IdleEmit(setup, ready, orders);
      var s2 := FeedStrategy(setup, s1, bar, orders);
      IdleDrain(setup, risk, s2.(buffer := []), s2.buffer, bar);
    }
  }

  // ---------------------------------------------------------------- runs, one bar more at a time

  lemma {:induction false} RunFromAppend(setup: Setup, risk: RiskOracle, strategy: Strategy, s: State, bars: seq<Bar>,
      bar: Bar, k: nat)
    requires k <= |bars|
    ensures RunFrom(setup, risk, strategy, s, bars + [bar], k)
         == Step(setup, risk, RunFrom(setup, risk, strategy, s, bars, k), bar, strategy(|bars|))
    decreases |bars| - k
  {
    var all := bars + [bar];
    if k < |bars| {
      assert all[k] == bars[k];
      RunFromAppend(setup, risk, strategy, Step(setup, risk, s, bars[k], strategy(k)), bars, bar, k + 1);
    } else {
      var s' := Step(setup, risk, s, all[k], strategy(k));
      assert RunFrom(setup, risk, strategy, s', all, k + 1) == s';
    }
  }

  /** A run over one bar more is one step more. */
  lemma {:induction false} RunNext(setup: Setup, risk: RiskOracle, strategy: Strategy, bars: seq<Bar>)
    requires bars != []
    ensures var front := bars[..|bars|-1];
      RunBars(setup, risk, strategy, bars)
      == Step(setup, risk, RunBars(setup, risk, strategy, front), bars[|bars|-1], strategy(|front|))
  {
    var front := bars[..|bars|-1];
    assert bars == front + [bars[|bars|-1]];
    RunFromAppend(setup, risk, strategy, InitialState(setup), front, bars[|bars|-1], 0);
  }

  /** If risk rejects or delays every order it is asked about, no run trades anything. */
  lemma {:induction false} NoTradeWithoutLeave(setup: Setup, risk: RiskOracle, strategy: Strategy, bars: seq<Bar>)
    requires Forbids(setup, risk)
    ensures var b := RunBars(setup, risk, strategy, bars).core.book; b.trades == [] && b.cash == setup.initialCash
    ensures Idle(setup, RunBars(setup, risk, strategy, bars).core.book)
  {
    if bars != [] {
      var front := bars[..|bars|-1];
      NoTradeWithoutLeave(setup, risk, strategy, front);
      RunNext(setup, risk, strategy, bars);
      IdleStep(setup, risk, RunBars(setup, risk, strategy, front), bars[|bars|-1], strategy(|front|));
    }
  }

  // ---------------------------------------------------------------- the prices a run goes by

  /** The close of the last bar of an instrument. */
  function LastClose(bars: seq<Bar>, i: string): Option<real> {
    if bars == [] then None
    else if bars[|bars|-1].instrument == i then Some(bars[|bars|-1].close)
    else LastClose(bars[..|bars|-1], i)
  }

  ghost predicate Knows(prices: map<string, real>, bars: seq<Bar>) {
    forall i :: (if i in prices then Some(prices[i]) else None) == LastClose(bars, i)
  }

  lemma {:induction false} KnowsNext(prices: map<string, real>, bars: seq<Bar>)
    requires bars != [] && Knows(prices, bars[..|bars|-1])
    ensures Knows(prices[bars[|bars|-1].instrument := bars[|bars|-1].close], bars)
  {
    var prices' := prices[bars[|bars|-1].instrument := bars[|bars|-1].close];
    forall i ensures (if i in prices' then Some(prices'[i]) else None) == LastClose(bars, i) {
      assert (if i in prices then Some(prices[i]) else None) == LastClose(bars[..|bars|-1], i);
    }
  }

  lemma {:induction false} ForceSellKeepsPrices(setup: Setup, c: Core, ids: seq<string>, bar: Bar, first: bool)
    ensures var c' := ForceSellEach(setup, c, ids, bar, first); c'.prevClose == c.prevClose && c'.latest == c.latest
    decreases |ids|
  {
    if ids != [] {
      var instrument := if first then FindFirst(setup.instruments, ids[0]) else FindLast(setup.instruments, ids[0]);
      ForceSellKeepsPrices(setup, ForceSell(setup, c, ids[0], bar, instrument), ids[1..], bar, first);
    }
  }

  lemma {:induction false} DrainKeepsPrices(setup: Setup, risk: RiskOracle, s: State, todo: seq<Pending>, bar: Bar)
    ensures var s' := Drain(setup, risk, s, todo, bar);
      s'.core.prevClose == s.core.prevClose && s'.core.latest == s.core.latest && s'.emitted == s.emitted
    decreases |todo|
  {
    if todo != [] {
      var p := todo[0];
      if Eligible(p, bar) {
        var instrument := FindLast(setup.instruments, p.order.instrument);
        var c2 := s.core.(book := OpenSlot(s.core.book, p.order.instrument), risks := s.core.risks + 1);
        ForceSellKeepsPrices(setup, c2, c2.book.ids, bar, true);
        DrainKeepsPrices(setup, risk, AfterAttempt(setup, risk, s, p, bar), todo[1..], bar);
      } else {
        DrainKeepsPrices(setup, risk, s.(buffer := s.buffer + [p]), todo[1..], bar);
      }
    }
  }

  lemma {:induction false} EmitCounts(s: State, orders: seq<Order>)
    ensures var s' := Emit(s, orders);
      && s'.core.prevClose == s.core.prevClose && s'.core.latest == s.core.latest
      && s'.emitted == s.emitted + |orders| && s'.attempts == s.attempts
    decreases |orders|
  {
    if orders != [] {
      EmitCounts(EmitOne(s, orders[0]), orders[1..]);
    }
  }

  lemma {:induction false} OpenBarPrices(setup: Setup, s: State, bar: Bar)
    ensures var s1 := OpenBar(setup, s, bar);
      && s1.core.prevClose == s.core.prevClose && s1.core.latest == s.core.latest[bar.instrument := bar.close]
      && s1.emitted == s.emitted && s1.attempts == s.attempts && s1.buffer == s.buffer
  {
    var s1 := StartDay(s, DateOf(bar.start));
    var c := s1.core.(latest := s1.core.latest[bar.instrument := bar.close]);
    var losses := Triggered(c.book.ids, c.book.positions, c.latest, true);
    var profits := Triggered(c.book.ids, c.book.positions, c.latest, false);
    ForceSellKeepsPrices(setup, c, losses, bar, false);
    ForceSellKeepsPrices(setup, ForceSellEach(setup, c, losses, bar, false), profits, bar, false);
  }

  lemma {:induction false} StepPrices(setup: Setup, risk: RiskOracle, s: State, bar: Bar, orders: seq<Order>)
    ensures var s' := Step(setup, risk, s, bar, orders);
      && s'.core.prevClose == s.core.prevClose[bar.instrument := bar.close]
      && s'.core.latest == s.core.latest[bar.instrument := bar.close]
      && (bar.instrument !in s.core.prevClose ==> s'.emitted == s.emitted && s'.attempts == s.attempts)
      && (bar.instrument in s.core.prevClose ==>
            s'.emitted == s.emitted + if FindLast(setup.instruments, bar.instrument).Some? then |orders| else 0)
  {
    var s1 := OpenBar(setup, s, bar);
    OpenBarPrices(setup, s, bar);
    if bar.instrument in s1.core.prevClose {
      EmitCounts(s1.(core := s1.core.(book := OpenSlot(s1.core.book, bar.instrument))), orders);
      var s2 := FeedStrategy(setup, s1, bar, orders);
      DrainKeepsPrices(setup, risk, s2.(buffer := []), s2.buffer, bar);
    }
  }

  /** At every point of every run the previous close and the latest price of an instrument are the close of the last
      bar of it, and there is none before its first bar. */
  lemma {:induction false} RunGoesByLastClose(setup: Setup, risk: RiskOracle, strategy: Strategy, bars: seq<Bar>)
    ensures var c := RunBars(setup, risk, strategy, bars).core; Knows(c.prevClose, bars) && Knows(c.latest, bars)
  {
    if bars != [] {
      var front := bars[..|bars|-1];
      var c := RunBars(setup, risk, strategy, front).core;
      RunGoesByLastClose(setup, risk, strategy, front);
      RunNext(setup, risk, strategy, bars);
      StepPrices(setup, risk, RunBars(setup, risk, strategy, front), bars[|bars|-1], strategy(|front|));
      KnowsNext(c.prevClose, bars);
      KnowsNext(c.latest, bars);
    }
  }

  /** The first bar of an instrument only gives its price: no order is taken up or tried on it. On later bars every
      order of the strategy is, if the instrument is known. */
  lemma {:induction false} FirstBarOnlySeeds(setup: Setup, risk: RiskOracle, strategy: Strategy, bars: seq<Bar>)
    requires bars != []
    ensures var front, bar := bars[..|bars|-1], bars[|bars|-1];
      var s, s' := RunBars(setup, risk, strategy, front), RunBars(setup, risk, strategy, bars);
      if LastClose(front, bar.instrument).None? then s'.emitted == s.emitted && s'.attempts == s.attempts
      else s'.emitted == s.emitted
             + if FindLast(setup.instruments, bar.instrument).Some? then |strategy(|front|)| else 0
  {
    var front, bar := bars[..|bars|-1], bars[|bars|-1];
    RunGoesByLastClose(setup, risk, strategy, front);
    RunNext(setup, risk, strategy, bars);
    var s := RunBars(setup, risk, strategy, front);
    assert (if bar.instrument in s.core.prevClose then Some(s.core.prevClose[bar.instrument]) else None)
      == LastClose(front, bar.instrument);
    StepPrices(setup, risk, s, bar, strategy(|front|));
  }

  /** The k-th instrument is the last one with the id. */
  ghost predicate IsLastOf(instruments: seq<Instrument>, id: string, k: int) {
    && 0 <= k < |instruments| && instruments[k].id == id
    && forall j :: k < j < |instruments| ==> instruments[j].id != id
  }

  /** Of several instruments of one id the last listed counts for orders. */
  lemma {:induction false} FindLastIsLast(instruments: seq<Instrument>, id: string)
    ensures match FindLast(instruments, id)
      case None => forall k :: 0 <= k < |instruments| ==> instruments[k].id != id
      case Some(x) => exists k :: IsLastOf(instruments, id, k) && instruments[k] == x
  {
    if instruments != [] {
      var n := |instruments| - 1;
      var front := instruments[..n];
      if instruments[n].id == id {
        assert IsLastOf(instruments, id, n);
      } else {
        FindLastIsLast(front, id);
        if FindLast(front, id).Some? {
          var k :| IsLastOf(front, id, k) && front[k] == FindLast(front, id).value;
          assert instruments[k] == front[k];
          assert forall j :: k < j < n ==> instruments[j] == front[j];
          assert IsLastOf(instruments, id, k);
        }
      }
    }
  }

  /** The k-th instrument is the first one with the id. */
  ghost predicate IsFirstOf(instruments: seq<Instrument>, id: string, k: int) {
    && 0 <= k < |instruments| && instruments[k].id == id
    && forall j :: 0 <= j < k ==> instruments[j].id != id
  }

  /** Of several instruments of one id the first listed counts for a flatten by risk. */
  lemma {:induction false} FindFirstIsFirst(instruments: seq<Instrument>, id: string)
    ensures match FindFirst(instruments, id)
      case None => forall k :: 0 <= k < |instruments| ==> instruments[k].id != id
      case Some(x) => exists k :: IsFirstOf(instruments, id, k) && instruments[k] == x
  {
    if instruments != [] {
      var rest := instruments[1..];
      if instruments[0].id == id {
        assert IsFirstOf(instruments, id, 0);
      } else {
        FindFirstIsFirst(rest, id);
        assert forall j :: 0 < j < |instruments| ==> instruments[j] == rest[j-1];
        if FindFirst(rest, id).Some? {
          var k :| IsFirstOf(rest, id, k) && rest[k] == FindFirst(rest, id).value;
          assert IsFirstOf(instruments, id, k + 1);
        }
      }
    }
  }

  // ---------------------------------------------------------------- daily values

  /** What the net shares of the log are worth at the last closes. */
  function HoldingsValue(ids: seq<string>, ts: seq<Trade>, bars: seq<Bar>): real {
    if ids == [] then 0.0
    else
      var i := ids[|ids|-1];
      HoldingsValue(ids[..|ids|-1], ts, bars) + LastClose(bars, i).GetOr(0.0) * NetShares(ts, i) as real
  }

  /** A position without a price is empty and worth nothing. */
  ghost predicate Priced(c: Core) {
    forall i :: i in c.latest || (Held(c.book, i).quantity == 0 && Held(c.book, i).marketValue == 0.0)
  }

  ghost predicate SameWorth(b: Book, b': Book) {
    forall i :: Held(b', i).quantity == Held(b, i).quantity && Held(b', i).marketValue == Held(b, i).marketValue
  }

  lemma {:induction false} SubmitPriced(setup: Setup, c: Core, o: Order, bar: Bar, instrument: Instrument)
    requires Priced(c) && o.instrument in c.latest
    ensures Priced(Submit(setup, c, o, bar, instrument).0)
  {
    var c' := Submit(setup, c, o, bar, instrument).0;
    assert forall i :: i != o.instrument ==> Held(c'.book, i) == Held(c.book, i);
  }

  lemma {:induction false} ForceSellPriced(setup: Setup, c: Core, i: string, bar: Bar, instrument: Option<Instrument>)
    requires Priced(c)
    ensures Priced(ForceSell(setup, c, i, bar, instrument))
  {
    if instrument.Some? {
      var c1 := c.(book := OpenSlot(c.book, i));
      assert forall j :: Held(c1.book, j) == Held(c.book, j);
      if Held(c1.book, i).quantity > 0 {
        SubmitPriced(setup, c1, SellAll(i), bar, instrument.value);
        var c2 := Submit(setup, c1, SellAll(i), bar, instrument.value).0;
        assert SameWorth(c2.book, ClearStops(c2.book, i));
      }
    }
  }

  lemma {:induction false} ForceSellEachPriced(setup: Setup, c: Core, ids: seq<string>, bar: Bar, first: bool)
    requires Priced(c)
    ensures Priced(ForceSellEach(setup, c, ids, bar, first))
    decreases |ids|
  {
    if ids != [] {
      var instrument := if first then FindFirst(setup.instruments, ids[0]) else FindLast(setup.instruments, ids[0]);
      ForceSellPriced(setup, c, ids[0], bar, instrument);
      ForceSellEachPriced(setup, ForceSell(setup, c, ids[0], bar, instrument), ids[1..], bar, first);
    }
  }

  lemma {:induction false} ProcessOrderPriced(setup: Setup, risk: RiskOracle, c: Core, o: Order, bar: Bar,
        instrument: Option<Instrument>)
    requires Priced(c) && o.instrument in c.latest
    ensures Priced(ProcessOrder(setup, risk, c, o, bar, instrument).0)
  {
    if instrument.Some? {
      var c1 := c.(book := OpenSlot(c.book, o.instrument));
      assert forall j :: Held(c1.book, j) == Held(c.book, j);
      var c2 := c1.(risks := c.risks + 1);
      if !setup.enableRisk {
        SubmitPriced(setup, c1, o, bar, instrument.value);
      } else {
        match risk(c.risks)
        case Allow => SubmitPriced(setup, c2, o, bar, instrument.value);
        case Resize(q) =>
          SubmitPriced(setup, c2, if q.Some? then o.(quantity := q.value) else o, bar, instrument.value);
        case ForceFlatten => ForceSellEachPriced(setup, c2, c2.book.ids, bar, true);
        case _ =>
      }
    }
  }

  lemma {:induction false} DrainPriced(setup: Setup, risk: RiskOracle, s: State, todo: seq<Pending>, bar: Bar)
    requires Priced(s.core) && bar.instrument in s.core.latest
    ensures Priced(Drain(setup, risk, s, todo, bar).core)
    decreases |todo|
  {
    if todo != [] {
      var p := todo[0];
      if Eligible(p, bar) {
        ProcessOrderPriced(setup, risk, s.core, p.order, bar, FindLast(setup.instruments, p.order.instrument));
        DrainKeepsPrices(setup, risk, s, [p], bar);
        var s1 := AfterAttempt(setup, risk, s, p, bar);
        assert Drain(setup, risk, s, [p], bar) == Drain(setup, risk, s1, [], bar) == s1;
        DrainPriced(setup, risk, s1, todo[1..], bar);
      } else {
        DrainPriced(setup, risk, s.(buffer := s.buffer + [p]), todo[1..], bar);
      }
    }
  }

  lemma {:induction false} EmitPriced(s: State, orders: seq<Order>)
    requires Priced(s.core)
    ensures Priced(Emit(s, orders).core)
    decreases |orders|
  {
    if orders != [] {
      var s1 := EmitOne(s, orders[0]);
      assert SameWorth(s.core.book, s1.core.book);
      EmitPriced(s1, orders[1..]);
    }
  }

  lemma {:induction false} StartDayPriced(s: State, date: int)
    requires Priced(s.core)
    ensures Priced(StartDay(s, date).core)
  {
    var s' := StartDay(s, date);
    forall i ensures i in s'.core.latest
      || (Held(s'.core.book, i).quantity == 0 && Held(s'.core.book, i).marketValue == 0.0)
    {
      assert i in s.core.latest || (Held(s.core.book, i).quantity == 0 && Held(s.core.book, i).marketValue == 0.0);
    }
  }

  lemma {:induction false} StepPriced(setup: Setup, risk: RiskOracle, s: State, bar: Bar, orders: seq<Order>)
    requires Priced(s.core)
    ensures Priced(Step(setup, risk, s, bar, orders).core)
  {
    var s0 := StartDay(s, DateOf(bar.start));
    StartDayPriced(s, DateOf(bar.start));
    var c := s0.core.(latest := s0.core.latest[bar.instrument := bar.close]);
    assert Priced(c);
    var losses := Triggered(c.book.ids, c.book.positions, c.latest, true);
    var profits := Triggered(c.book.ids, c.book.positions, c.latest, false);
    ForceSellEachPriced(setup, c, losses, bar, false);
    ForceSellEachPriced(setup, ForceSellEach(setup, c, losses, bar, false), profits, bar, false);
    OpenBarPrices(setup, s, bar);
    var s1 := OpenBar(setup, s, bar);
    if bar.instrument in s1.core.prevClose {
      var ready := s1.(core := s1.core.(book := OpenSlot(s1.core.book, bar.instrument)));
      assert forall i :: Held(ready.core.book, i) == Held(s1.core.book, i);
      EmitPriced(ready, orders);
      EmitCounts(ready, orders);
      var s2 := FeedStrategy(setup, s1, bar, orders);
      DrainPriced(setup, risk, s2.(buffer := []), s2.buffer, bar);
    }
  }

  lemma {:induction false} RunPriced(setup: Setup, risk: RiskOracle, strategy: Strategy, bars: seq<Bar>)
    ensures Priced(RunBars(setup, risk, strategy, bars).core)
  {
    if bars != [] {
      RunPriced(setup, risk, strategy, bars[..|bars|-1]);
      RunNext(setup, risk, strategy, bars);
      StepPriced(setup, risk, RunBars(setup, risk, strategy, bars[..|bars|-1]), bars[|bars|-1], strategy(|bars| - 1));
    }
  }

  lemma {:induction false} MarkedWorth(c: Core, bars: seq<Bar>, ids: seq<string>)
    requires Priced(c) && Knows(c.latest, bars) && forall i :: Held(c.book, i).quantity == NetShares(c.book.trades, i)
    requires forall i :: i in ids ==> i in c.book.positions
    ensures MarketValue(ids, MarkToMarket(c.book, c.latest).positions) == HoldingsValue(ids, c.book.trades, bars)
  {
    if ids != [] {
      var i := ids[|ids|-1];
      MarkedWorth(c, bars, ids[..|ids|-1]);
      assert i in c.book.positions && Held(c.book, i).quantity == NetShares(c.book.trades, i);
      assert (if i in c.latest then Some(c.latest[i]) else None) == LastClose(bars, i);
      if i !in c.latest {
        assert Held(c.book, i).quantity == 0 && Held(c.book, i).marketValue == 0.0;
      }
    }
  }

  /** The row of a day that ends, in a state that replays. */
  lemma {:induction false} EndOfDayRow(setup: Setup, s: State, bars: seq<Bar>, next: int)
    requires s.day.Some? && s.day.value != next && WellFormed(s.core.book)
    requires Priced(s.core) && Knows(s.core.latest, bars)
    requires s.core.book.cash == setup.initialCash + NetCash(s.core.book.trades)
    requires forall i :: Held(s.core.book, i).quantity == NetShares(s.core.book.trades, i)
    ensures var b, daily := s.core.book, StartDay(s, next).core.book.daily;
      var cash, worth := setup.initialCash + NetCash(b.trades), HoldingsValue(b.ids, b.trades, bars);
      daily == b.daily + [DailyValue(s.day.value, cash, worth, cash + worth)]
  {
    MarkedWorth(s.core, bars, s.core.book.ids);
  }

  lemma {:induction false} TradedAreListed(b: Book, i: string)
    requires WellFormed(b) && Held(b, i).quantity == NetShares(b.trades, i) && NetShares(b.trades, i) != 0
    ensures i in b.ids
  {
  }

  lemma {:induction false} RunReplays(setup: Setup, risk: RiskOracle, strategy: Strategy, bars: seq<Bar>)
    requires Chronological(bars)
    ensures var b := RunBars(setup, risk, strategy, bars).core.book;
      && b.cash == setup.initialCash + NetCash(b.trades)
      && forall i :: Held(b, i).quantity == NetShares(b.trades, i)
  {
    forall i { EveryRunSound(setup, risk, strategy, bars, i, 0); }
  }

  /** When a day of a run ends, its row is what the log says: cash is the initial cash and what the trades moved, the
      market value is the net shares at the last closes, and every traded instrument is among those summed. */
  lemma {:induction false} DailyRowIsEquity(setup: Setup, risk: RiskOracle, strategy: Strategy, bars: seq<Bar>,
        next: int)
    requires Chronological(bars) && bars != [] && next != DateOf(bars[|bars|-1].start)
    ensures var s := RunBars(setup, risk, strategy, bars);
      var b, daily := s.core.book, StartDay(s, next).core.book.daily;
      var cash, worth := setup.initialCash + NetCash(b.trades), HoldingsValue(b.ids, b.trades, bars);
      && daily == b.daily + [DailyValue(DateOf(bars[|bars|-1].start), cash, worth, cash + worth)]
      && forall i :: NetShares(b.trades, i) != 0 ==> i in b.ids
  {
    var s := RunBars(setup, risk, strategy, bars);
    RunReplays(setup, risk, strategy, bars);
    RunIsWellFormed(setup, risk, strategy, bars);
    RunPriced(setup, risk, strategy, bars);
    RunGoesByLastClose(setup, risk, strategy, bars);
    EndOfDayRow(setup, s, bars, next);
    forall i | NetShares(s.core.book.trades, i) != 0 { TradedAreListed(s.core.book, i); }
  }

  lemma {:induction false} RunIsWellFormed(setup: Setup, risk: RiskOracle, strategy: Strategy, bars: seq<Bar>)
    requires Chronological(bars) && bars != []
    ensures var s := RunBars(setup, risk, strategy, bars);
      WellFormed(s.core.book) && s.day == Some(DateOf(bars[|bars|-1].start))
  {
    var front := bars[..|bars|-1];
    forall day { EmptyBookSound(setup.initialCash, setup.matching.lotSize, day); }
    RunFromSound(setup, risk, strategy, InitialState(setup), bars, 0);
    RunNext(setup, risk, strategy, bars);
    RunIsDated(setup, risk, strategy, front);
    RunFromSound(setup, risk, strategy, InitialState(setup), front, 0);
    StepSound(setup, risk, RunBars(setup, risk, strategy, front), bars[|bars|-1], strategy(|front|));
  }

  /** The day in progress is that of the last bar. */
  lemma {:induction false} RunIsDated(setup: Setup, risk: RiskOracle, strategy: Strategy, bars: seq<Bar>)
    requires Chronological(bars)
    ensures RunBars(setup, risk, strategy, bars).day
         == if bars == [] then None else Some(DateOf(bars[|bars|-1].start))
  {
    if bars != [] {
      var front := bars[..|bars|-1];
      RunIsDated(setup, risk, strategy, front);
      RunNext(setup, risk, strategy, bars);
      forall day { EmptyBookSound(setup.initialCash, setup.matching.lotSize, day); }
      RunFromSound(setup, risk, strategy, InitialState(setup), front, 0);
      StepSound(setup, risk, RunBars(setup, risk, strategy, front), bars[|bars|-1], strategy(|front|));
    }
  }
}
