/** What one backtest run does, bar by bar, as functions on states. The strategy and the risk engine
    are arbitrary: `strategy(k)` is what the strategy emits on the k-th bar of the merged stream and
    `risk(n)` the answer to the n-th risk query, so a statement about every such pair of functions is
    a statement about every strategy and every risk configuration. */
module Engine {
  import opened Wrappers
  import opened Bars
  import opened Matcher
  import opened Portfolio

  const MAX_DELAY_ATTEMPTS := 3

  datatype RiskOutcome = Allow | Reject | Resize(quantity: Option<int>) | Delay | ForceFlatten

  type RiskOracle = nat -> RiskOutcome

  type Strategy = nat -> seq<Order>

  datatype Setup = Setup(
    matching: Config,
    instruments: seq<Instrument>,
    enableRisk: bool,
    rejectOnBadData: bool,
    initialCash: real)

  /** What an attempt to execute an order came to. The engine reports the first two alike. */
  datatype Outcome = Executed | FlattenedAll | Delayed | Rejected | Skipped

  /** An order waiting in the buffer; `ticket` numbers the orders of a run as they are emitted. */
  datatype Pending = Pending(order: Order, delays: nat, ticket: nat)

  /** The part of the run that lives in the engine object: `risks` counts risk queries. */
  datatype Core = Core(book: Book, prevClose: map<string, real>, latest: map<string, real>, risks: nat)

  /** One attempt: the bar it was made on, what risk answered if it was asked, its outcome, and the length of the
      trade log before and after. */
  datatype Attempt = Attempt(
    ticket: nat,
    order: Order,
    bar: Bar,
    answer: Option<RiskOutcome>,
    outcome: Outcome,
    before: nat,
    after: nat)

  datatype State = State(core: Core, day: Option<int>, buffer: seq<Pending>, emitted: nat, attempts: seq<Attempt>)

  function InitialState(setup: Setup): State {
    State(Core(Book(setup.initialCash, setup.initialCash, [], map[], [], []), map[], map[], 0), None, [], 0, [])
  }

  // ---------------------------------------------------------------- instruments

  function FindFirst(instruments: seq<Instrument>, id: string): Option<Instrument> {
    if instruments == [] then None
    else if instruments[0].id == id then Some(instruments[0])
    else FindFirst(instruments[1..], id)
  }

  /** The instrument a dictionary keyed by id ends up holding: the last one listed. */
  function FindLast(instruments: seq<Instrument>, id: string): Option<Instrument> {
    if instruments == [] then None
    else if instruments[|instruments|-1].id == id then Some(instruments[|instruments|-1])
    else FindLast(instruments[..|instruments|-1], id)
  }

  // ---------------------------------------------------------------- forced sales

  function SellAll(i: string): Order {
    Order(i, Sell, 0, false, None, None, None, "sl-tp-" + i)
  }

  function PrevClose(c: Core, i: string, bar: Bar): real {
    if i in c.prevClose then c.prevClose[i] else bar.open
  }

  function Execute(setup: Setup, c: Core, o: Order, bar: Bar, instrument: Instrument): MatchResult {
    var p := Held(c.book, o.instrument);
    MatchOrder(setup.matching, o, bar, PrevClose(c, o.instrument, bar), instrument, p.quantity, p.todayBought,
      c.book.cash)
  }

  function Booked(c: Core, o: Order, bar: Bar, r: MatchResult): Core
    requires r.Fill?
  {
    c.(book := ApplyFill(c.book, o.instrument, o.side, r.price, r.quantity, r.commission, r.stampTax, bar.start,
      o.signalId))
  }

  /** A stop-loss, take-profit or force-flatten sale of everything sellable of one instrument. */
  function ForceSell(setup: Setup, c: Core, i: string, bar: Bar, instrument: Option<Instrument>): Core {
    if instrument.None? then c else
    var c1 := c.(book := OpenSlot(c.book, i));
    if Held(c1.book, i).quantity <= 0 then c1 else
    var r := Execute(setup, c1, SellAll(i), bar, instrument.value);
    if r.NoFill? then c1
    else
      var c2 := Booked(c1, SellAll(i), bar, r);
      c2.(book := ClearStops(c2.book, i))
  }

  function ForceSellEach(setup: Setup, c: Core, ids: seq<string>, bar: Bar, first: bool): Core
    decreases |ids|
  {
    if ids == [] then c
    else
      var instrument := if first then FindFirst(setup.instruments, ids[0]) else FindLast(setup.instruments, ids[0]);
      ForceSellEach(setup, ForceSell(setup, c, ids[0], bar, instrument), ids[1..], bar, first)
  }

  function FlattenAll(setup: Setup, c: Core, bar: Bar): Core {
    ForceSellEach(setup, c, c.book.ids, bar, true)
  }

  // ---------------------------------------------------------------- orders

  function Submit(setup: Setup, c: Core, o: Order, bar: Bar, instrument: Instrument): (Core, Outcome) {
    var r := Execute(setup, c, o, bar, instrument);
    if r.Fill? then (Booked(c, o, bar, r), Executed) else (c, Rejected)
  }

  function ProcessOrder(setup: Setup, risk: RiskOracle, c: Core, o: Order, bar: Bar,
        instrument: Option<Instrument>): (Core, Outcome)
  {
    if instrument.None? then (c, Skipped) else
    var c1 := c.(book := OpenSlot(c.book, o.instrument));
    if !setup.enableRisk then Submit(setup, c1, o, bar, instrument.value) else
    var c2 := c1.(risks := c.risks + 1);
    match risk(c.risks)
    case Allow => Submit(setup, c2, o, bar, instrument.value)
    case Reject => (c2, Rejected)
    case Resize(q) => Submit(setup, c2, if q.Some? then o.(quantity := q.value) else o, bar, instrument.value)
    case Delay => (c2, Delayed)
    case ForceFlatten => (FlattenAll(setup, c2, bar), FlattenedAll)
  }

  /** What risk answers to the order, if it is asked: not about an unknown instrument. */
  function Answer(setup: Setup, risk: RiskOracle, c: Core, o: Order): Option<RiskOutcome> {
    if !setup.enableRisk || FindLast(setup.instruments, o.instrument).None? then None else Some(risk(c.risks))
  }

  predicate Eligible(p: Pending, bar: Bar) {
    p.order.instrument == bar.instrument && bar.completed
  }

  /** Works through the waiting orders `todo`; `s.buffer` collects those that go on waiting. */
  function Drain(setup: Setup, risk: RiskOracle, s: State, todo: seq<Pending>, bar: Bar): State
    decreases |todo|
  {
    if todo == [] then s
    else
      var p := todo[0];
      if !Eligible(p, bar) then Drain(setup, risk, s.(buffer := s.buffer + [p]), todo[1..], bar)
      else Drain(setup, risk, AfterAttempt(setup, risk, s, p, bar), todo[1..], bar)
  }

  function AfterAttempt(setup: Setup, risk: RiskOracle, s: State, p: Pending, bar: Bar): State {
    var (c, outcome) :=
        ProcessOrder(setup, risk, s.core, p.order, bar, FindLast(setup.instruments, p.order.instrument));
    s.(core := c,
       attempts := s.attempts + [Attempt(p.ticket, p.order, bar, Answer(setup, risk, s.core, p.order), outcome,
                                         |s.core.book.trades|, |c.book.trades|)],
       buffer := if outcome == Delayed && p.delays < MAX_DELAY_ATTEMPTS
                 then s.buffer + [p.(delays := p.delays + 1)] else s.buffer)
  }

  function EmitOne(s: State, o: Order): State {
    s.(core := if o.stopLoss.Some? || o.takeProfit.Some?
               then s.core.(book := SetStops(s.core.book, o.instrument, o.stopLoss, o.takeProfit)) else s.core,
       buffer := s.buffer + [Pending(o, 0, s.emitted)],
       emitted := s.emitted + 1)
  }

  function Emit(s: State, orders: seq<Order>): State
    decreases |orders|
  {
    if orders == [] then s else Emit(EmitOne(s, orders[0]), orders[1..])
  }

  // ---------------------------------------------------------------- bars

  /** Day change: mark and snapshot the day that ends, then settle what it bought. */
  function StartDay(s: State, date: int): State {
    if s.day == Some(date) then s
    else
      var b := if s.day.None? then s.core.book
               else Snapshot(MarkToMarket(s.core.book, s.core.latest), s.day.value);
      s.(core := s.core.(book := ResetDay(b)), day := Some(date))
  }

  function ForcedExits(setup: Setup, c: Core, bar: Bar): Core {
    if !bar.completed then c
    else
      var losses := Triggered(c.book.ids, c.book.positions, c.latest, true);
      var profits := Triggered(c.book.ids, c.book.positions, c.latest, false);
      ForceSellEach(setup, ForceSellEach(setup, c, losses, bar, false), profits, bar, false)
  }

  function OpenBar(setup: Setup, s: State, bar: Bar): State {
    var s1 := StartDay(s, DateOf(bar.start));
    s1.(core := ForcedExits(setup, s1.core.(latest := s1.core.latest[bar.instrument := bar.close]), bar))
  }

  function FeedStrategy(setup: Setup, s: State, bar: Bar, orders: seq<Order>): State {
    if FindLast(setup.instruments, bar.instrument).None? then s
    else Emit(s.(core := s.core.(book := OpenSlot(s.core.book, bar.instrument))), orders)
  }

  function CloseBar(s: State, bar: Bar): State {
    s.(core := s.core.(prevClose := s.core.prevClose[bar.instrument := bar.close]))
  }

  /** One bar. The first bar of an instrument only seeds its previous close. */
  function Step(setup: Setup, risk: RiskOracle, s: State, bar: Bar, orders: seq<Order>): State {
    var s1 := OpenBar(setup, s, bar);
    if bar.instrument !in s1.core.prevClose then CloseBar(s1, bar)
    else
      var s2 := FeedStrategy(setup, s1, bar, orders);
      CloseBar(Drain(setup, risk, s2.(buffer := []), s2.buffer, bar), bar)
  }

  /** The state after the bars from the k-th on. */
  function RunFrom(setup: Setup, risk: RiskOracle, strategy: Strategy, s: State, bars: seq<Bar>, k: nat): State
    requires k <= |bars|
    decreases |bars| - k
  {
    if k == |bars| then s
    else RunFrom(setup, risk, strategy, Step(setup, risk, s, bars[k], strategy(k)), bars, k + 1)
  }

  function RunBars(setup: Setup, risk: RiskOracle, strategy: Strategy, bars: seq<Bar>): State {
    RunFrom(setup, risk, strategy, InitialState(setup), bars, 0)
  }

  function Merge(barsByInstrument: seq<seq<Bar>>): seq<Bar> {
    if barsByInstrument == [] then []
    else Merge(barsByInstrument[..|barsByInstrument|-1]) + barsByInstrument[|barsByInstrument|-1]
  }

  predicate HasZeroPrice(b: Bar) {
    b.open == 0.0 || b.high == 0.0 || b.low == 0.0 || b.close == 0.0
  }

  predicate Refused(setup: Setup, bars: seq<Bar>) {
    bars == [] || (setup.rejectOnBadData && exists k :: 0 <= k < |bars| && HasZeroPrice(bars[k]))
  }

  /** The final snapshot, taken without re-marking. */
  function Finish(s: State): Core {
    if s.day.None? then s.core else s.core.(book := Snapshot(s.core.book, s.day.value))
  }
}
