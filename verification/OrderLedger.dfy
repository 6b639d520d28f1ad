/** What becomes of every order emitted in a backtest run. */
module OrderLedger {
  import opened Wrappers
  import opened Bars
  import opened Matcher
  import opened Portfolio
  import opened Engine

  /** The outcomes of the attempts made with ticket `t`, in order. */
  function Tries(attempts: seq<Attempt>, t: nat): seq<Outcome> {
    if attempts == [] then []
    else
      var a := attempts[|attempts|-1];
      Tries(attempts[..|attempts|-1], t) + if a.ticket == t then [a.outcome] else []
  }

  predicate AllDelayed(h: seq<Outcome>) {
    forall j :: 0 <= j < |h| ==> h[j] == Delayed
  }

  /** The order is still in the buffer: it has only ever been delayed, once per recorded delay. */
  predicate WaitsWith(attempts: seq<Attempt>, p: Pending) {
    var h := Tries(attempts, p.ticket);
    |h| == p.delays <= MAX_DELAY_ATTEMPTS && AllDelayed(h)
  }

  /** The order is done: its first non-delayed outcome was its last attempt, or it ran out of delays. */
  predicate IsSettled(attempts: seq<Attempt>, t: nat) {
    var h := Tries(attempts, t);
    && 1 <= |h| <= MAX_DELAY_ATTEMPTS + 1
    && AllDelayed(h[..|h|-1])
    && (h[|h|-1] == Delayed ==> |h| == MAX_DELAY_ATTEMPTS + 1)
  }

  predicate Waiting(buffer: seq<Pending>, t: nat) {
    exists k :: 0 <= k < |buffer| && buffer[k].ticket == t
  }

  /** Every ticket issued so far is either waiting or settled; none is lost or held twice. */
  ghost predicate Accounted(attempts: seq<Attempt>, emitted: nat, buffer: seq<Pending>) {
    && (forall j, k :: 0 <= j < k < |buffer| ==> buffer[j].ticket != buffer[k].ticket)
    && (forall k :: 0 <= k < |buffer| ==> buffer[k].ticket < emitted && WaitsWith(attempts, buffer[k]))
    && (forall t: nat :: t >= emitted ==> Tries(attempts, t) == [])
    && (forall t: nat :: t < emitted ==> Waiting(buffer, t) || IsSettled(attempts, t))
  }

  /** The trade is the order's own, made on the bar at its open, slipped against the trader. */
  ghost predicate OwnTrade(setup: Setup, a: Attempt, t: Trade) {
    && t.instrument == a.order.instrument && t.side == a.order.side && t.signalId == a.order.signalId
    && t.time == a.bar.start
    && FairTerms(setup.matching, t.side, a.bar, t.price, t.quantity, t.commission, t.stampTax)
  }

  /** The trade is no larger than asked for, by the order or by risk resizing it. */
  ghost predicate SizedAsAsked(a: Attempt, t: Trade) {
    var asked := match a.answer
      case Some(Resize(Some(q))) => q
      case _ => a.order.quantity;
    asked > 0 ==> t.quantity <= asked
  }

  /** What an attempt did: it was made on a completed bar of the order's instrument; a rejection, a delay and a
      flatten by risk are final; an executed order made exactly one trade of its own, a flatten made only sales,
      anything else made none. */
  ghost predicate Explained(setup: Setup, a: Attempt, trades: seq<Trade>) {
    && a.before <= a.after <= |trades|
    && a.bar.instrument == a.order.instrument && a.bar.completed
    && (a.answer == Some(RiskOutcome.Reject) ==> a.outcome == Rejected)
    && (a.answer == Some(RiskOutcome.Delay) <==> a.outcome == Delayed)
    && (a.answer == Some(RiskOutcome.ForceFlatten) <==> a.outcome == FlattenedAll)
    && (a.outcome == Executed ==>
          && a.after == a.before + 1
          && OwnTrade(setup, a, trades[a.before]) && SizedAsAsked(a, trades[a.before]))
    && (a.outcome == FlattenedAll ==> forall k :: a.before <= k < a.after ==> trades[k].side == Sell)
    && (a.outcome == Delayed || a.outcome == Rejected || a.outcome == Skipped ==> a.after == a.before)
  }

  ghost predicate AllExplained(setup: Setup, s: State) {
    forall k :: 0 <= k < |s.attempts| ==> Explained(setup, s.attempts[k], s.core.book.trades)
  }

  // ---------------------------------------------------------------- trade log growth

  /** `c'` follows `c` by appending sales only. */
  ghost predicate OnlySold(c: Core, c': Core) {
    var ts, ts' := c.book.trades, c'.book.trades;
    |ts| <= |ts'| && ts'[..|ts|] == ts && forall k :: |ts| <= k < |ts'| ==> ts'[k].side == Sell
  }

  lemma {:induction false} ForceSellEachOnlySells(setup: Setup, c: Core, ids: seq<string>, bar: Bar, first: bool)
    ensures OnlySold(c, ForceSellEach(setup, c, ids, bar, first))
    decreases |ids|
  {
    if ids != [] {
      var instrument := if first then FindFirst(setup.instruments, ids[0]) else FindLast(setup.instruments, ids[0]);
      var c1 := ForceSell(setup, c, ids[0], bar, instrument);
      assert OnlySold(c, c1);
      ForceSellEachOnlySells(setup, c1, ids[1..], bar, first);
      var c2 := ForceSellEach(setup, c1, ids[1..], bar, first);
      assert c2.book.trades[..|c.book.trades|] == c1.book.trades[..|c.book.trades|];
      assert forall k :: |c.book.trades| <= k < |c1.book.trades| ==>
          c2.book.trades[k] == c2.book.trades[..|c1.book.trades|][k];
    }
  }

  /** The terms of a fill of the order on the bar. */
  ghost predicate OwnFill(setup: Setup, o: Order, bar: Bar, r: MatchResult)
    requires r.Fill?
  {
    && FairTerms(setup.matching, o.side, bar, r.price, r.quantity, r.commission, r.stampTax)
    && (o.quantity > 0 ==> r.quantity <= o.quantity)
  }

  lemma ExecuteTerms(setup: Setup, c: Core, o: Order, bar: Bar, instrument: Instrument)
    ensures var r := Execute(setup, c, o, bar, instrument); r.Fill? ==> OwnFill(setup, o, bar, r)
  {
    var p, last := Held(c.book, o.instrument), PrevClose(c, o.instrument, bar);
    var limit := setup.matching.limits.Limit(instrument.isSt, instrument.boardType);
    FillTerms(setup.matching, o, bar, last, instrument, p.quantity, p.todayBought, c.book.cash, limit);
    NeverMoreThanAsked(setup.matching, o, bar, last, instrument, p.quantity, p.todayBought, c.book.cash);
  }

  lemma BookedExplained(setup: Setup, c: Core, o: Order, bar: Bar, r: MatchResult)
    requires r.Fill? && OwnFill(setup, o, bar, r)
    ensures var ts, ts' := c.book.trades, Booked(c, o, bar, r).book.trades;
      && ts <= ts' && |ts'| == |ts| + 1
      && OwnTrade(setup, Attempt(0, o, bar, None, Executed, 0, 0), ts'[|ts|])
      && (o.quantity > 0 ==> ts'[|ts|].quantity <= o.quantity)
  {
  }

  /** What submitting an order, resized or not, does to the log. */
  ghost predicate Submitted(setup: Setup, c: Core, o: Order, bar: Bar, c': Core, outcome: Outcome) {
    var ts, ts' := c.book.trades, c'.book.trades;
    && (outcome == Executed || outcome == Rejected)
    && ts <= ts'
    && (outcome == Rejected ==> ts' == ts)
    && (outcome == Executed ==>
          && |ts'| == |ts| + 1
          && OwnTrade(setup, Attempt(0, o, bar, None, Executed, 0, 0), ts'[|ts|])
          && (o.quantity > 0 ==> ts'[|ts|].quantity <= o.quantity))
  }

  lemma SubmitExplained(setup: Setup, c: Core, o: Order, bar: Bar, instrument: Instrument)
    ensures var (c', outcome) := Submit(setup, c, o, bar, instrument); Submitted(setup, c, o, bar, c', outcome)
  {
    var r := Execute(setup, c, o, bar, instrument);
    ExecuteTerms(setup, c, o, bar, instrument);
    if r.Fill? {
      BookedExplained(setup, c, o, bar, r);
    }
  }

  lemma SubmittedIsExplained(setup: Setup, a: Attempt, o: Order, c: Core, c': Core)
    requires Submitted(setup, c, o, a.bar, c', a.outcome) && a.before == |c.book.trades| && a.after == |c'.book.trades|
    requires a.bar.instrument == a.order.instrument && a.bar.completed
    requires o == a.order || (a.answer == Some(Resize(Some(o.quantity))) && o == a.order.(quantity := o.quantity))
    requires a.answer.Some? ==>
      a.answer.value.Allow? || a.answer.value == Resize(None) || a.answer.value == Resize(Some(o.quantity))
    ensures Explained(setup, a, c'.book.trades)
  {
  }

  lemma FlattenExplained(setup: Setup, c: Core, bar: Bar)
    ensures var c' := FlattenAll(setup, c, bar);
      && c.book.trades <= c'.book.trades
      && forall k :: |c.book.trades| <= k < |c'.book.trades| ==> c'.book.trades[k].side == Sell
  {
    ForceSellEachOnlySells(setup, c, c.book.ids, bar, true);
    var f := FlattenAll(setup, c, bar);
    assert f.book.trades == f.book.trades[..|c.book.trades|] + f.book.trades[|c.book.trades|..];
  }

  lemma {:induction false} FindLastKnows(instruments: seq<Instrument>, id: string)
    ensures FindLast(instruments, id).None? <==> forall k :: 0 <= k < |instruments| ==> instruments[k].id != id
  {
    if instruments != [] {
      FindLastKnows(instruments[..|instruments|-1], id);
    }
  }

  /** An attempt at an order on a completed bar of its instrument. */
  lemma ProcessOrderExplained(setup: Setup, risk: RiskOracle, c: Core, o: Order, bar: Bar, ticket: nat)
    requires bar.instrument == o.instrument && bar.completed
    ensures var (c', outcome) := ProcessOrder(setup, risk, c, o, bar, FindLast(setup.instruments, o.instrument));
      var a := Attempt(ticket, o, bar, Answer(setup, risk, c, o), outcome, |c.book.trades|, |c'.book.trades|);
      && c.book.trades <= c'.book.trades && Explained(setup, a, c'.book.trades)
      && (outcome == Skipped <==> forall k :: 0 <= k < |setup.instruments| ==>
            setup.instruments[k].id != o.instrument)
  {
    FindLastKnows(setup.instruments, o.instrument);
    var instrument := FindLast(setup.instruments, o.instrument);
    var (c', outcome) := ProcessOrder(setup, risk, c, o, bar, instrument);
    var a := Attempt(ticket, o, bar, Answer(setup, risk, c, o), outcome, |c.book.trades|, |c'.book.trades|);
    if instrument.Some? {
      var c1 := c.(book := OpenSlot(c.book, o.instrument));
      var c2 := c1.(risks := c1.risks + 1);
      assert c1.book.trades == c.book.trades;
      if !setup.enableRisk {
        SubmitExplained(setup, c1, o, bar, instrument.value);
        SubmittedIsExplained(setup, a, o, c1, c');
      } else {
        match risk(c.risks)
        case Allow =>
          SubmitExplained(setup, c2, o, bar, instrument.value);
          SubmittedIsExplained(setup, a, o, c2, c');
        case Resize(q) =>
          var o' := if q.Some? then o.(quantity := q.value) else o;
          SubmitExplained(setup, c2, o', bar, instrument.value);
          SubmittedIsExplained(setup, a, o', c2, c');
        case ForceFlatten => FlattenExplained(setup, c2, bar);
        case _ =>
      }
    }
  }

  lemma StaysExplained(setup: Setup, s: State, s': State)
    requires AllExplained(setup, s) && s'.attempts == s.attempts && s.core.book.trades <= s'.core.book.trades
    ensures AllExplained(setup, s')
  {
  }

  // ---------------------------------------------------------------- the buffer

  lemma TriesAppend(attempts: seq<Attempt>, a: Attempt, t: nat)
    ensures Tries(attempts + [a], t) == Tries(attempts, t) + if a.ticket == t then [a.outcome] else []
  {
    assert (attempts + [a])[..|attempts|] == attempts;
  }

  /** An attempt concerns its own ticket only. */
  lemma OthersUntouched(attempts: seq<Attempt>, a: Attempt)
    ensures forall t: nat :: t != a.ticket ==> Tries(attempts + [a], t) == Tries(attempts, t)
  {
    forall t: nat { TriesAppend(attempts, a, t); }
  }

  /** A further delay keeps the order waiting, in its place. */
  lemma DelayAccounted(attempts: seq<Attempt>, emitted: nat, front: seq<Pending>, p: Pending, rest: seq<Pending>,
        a: Attempt)
    requires Accounted(attempts, emitted, front + [p] + rest) && a.ticket == p.ticket
    requires a.outcome == Delayed && p.delays < MAX_DELAY_ATTEMPTS
    ensures Accounted(attempts + [a], emitted, front + [p.(delays := p.delays + 1)] + rest)
  {
    var n, p' := |front|, p.(delays := p.delays + 1);
    var was, now := front + [p] + rest, front + [p'] + rest;
    assert was[n] == p && WaitsWith(attempts, p);
    OthersUntouched(attempts, a);
    TriesAppend(attempts, a, p.ticket);
    assert WaitsWith(attempts + [a], p');
    forall k | 0 <= k < |now| ensures now[k].ticket == was[k].ticket && WaitsWith(attempts + [a], now[k]) {
      if k != n {
        assert now[k] == was[k] && was[k].ticket != p.ticket;
      }
    }
    forall t: nat | t < emitted ensures Waiting(now, t) || IsSettled(attempts + [a], t) {
      if Waiting(was, t) {
        var k :| 0 <= k < |was| && was[k].ticket == t;
        assert now[k].ticket == t;
      } else {
        assert t != was[n].ticket;
      }
    }
  }

  lemma SettlesNow(attempts: seq<Attempt>, p: Pending, a: Attempt)
    requires WaitsWith(attempts, p) && a.ticket == p.ticket
    requires !(a.outcome == Delayed && p.delays < MAX_DELAY_ATTEMPTS)
    ensures IsSettled(attempts + [a], p.ticket)
  {
    TriesAppend(attempts, a, p.ticket);
    assert Tries(attempts + [a], p.ticket)[..p.delays] == Tries(attempts, p.ticket);
  }

  /** Any other outcome settles the order, which leaves the buffer. */
  lemma OutcomeAccounted(attempts: seq<Attempt>, emitted: nat, front: seq<Pending>, p: Pending, rest: seq<Pending>,
        a: Attempt)
    requires Accounted(attempts, emitted, front + [p] + rest) && a.ticket == p.ticket
    requires !(a.outcome == Delayed && p.delays < MAX_DELAY_ATTEMPTS)
    ensures Accounted(attempts + [a], emitted, front + rest)
  {
    var n, was, now := |front|, front + [p] + rest, front + rest;
    assert was[n] == p && WaitsWith(attempts, p);
    SettlesNow(attempts, p, a);
    OthersUntouched(attempts, a);
    RemovedFrom(front, p, rest);
    forall k | 0 <= k < |now| ensures now[k].ticket < emitted && WaitsWith(attempts + [a], now[k]) {
      var k' := if k < n then k else k + 1;
      assert now[k] == was[k'] && WaitsWith(attempts, was[k']) && was[k'].ticket != p.ticket;
    }
    forall t: nat | t < emitted ensures Waiting(now, t) || IsSettled(attempts + [a], t) {
      if t != p.ticket && !IsSettled(attempts, t) {
        assert Waiting(was, t);
      }
    }
  }

  lemma RemovedFrom(front: seq<Pending>, p: Pending, rest: seq<Pending>)
    requires var was := front + [p] + rest; forall j, k :: 0 <= j < k < |was| ==> was[j].ticket != was[k].ticket
    ensures var now := front + rest; forall j, k :: 0 <= j < k < |now| ==> now[j].ticket != now[k].ticket
    ensures forall t: nat :: t != p.ticket && Waiting(front + [p] + rest, t) ==> Waiting(front + rest, t)
  {
    var n, was, now := |front|, front + [p] + rest, front + rest;
    forall j, k | 0 <= j < k < |now| ensures now[j].ticket != now[k].ticket {
      assert now[j] == was[if j < n then j else j + 1];
      assert now[k] == was[if k < n then k else k + 1];
    }
    forall t: nat | t != p.ticket && Waiting(was, t) ensures Waiting(now, t) {
      var k :| 0 <= k < |was| && was[k].ticket == t;
      assert now[if k < n then k else k - 1].ticket == t;
    }
  }

  lemma {:induction false} DrainAccounted(setup: Setup, risk: RiskOracle, s: State, todo: seq<Pending>, bar: Bar)
    requires Accounted(s.attempts, s.emitted, s.buffer + todo) && AllExplained(setup, s)
    ensures var s' := Drain(setup, risk, s, todo, bar);
      Accounted(s'.attempts, s'.emitted, s'.buffer) && AllExplained(setup, s') && s'.emitted == s.emitted
    decreases |todo|
  {
    if todo == [] {
      assert s.buffer + todo == s.buffer;
    } else {
      var p, rest := todo[0], todo[1..];
      assert s.buffer + todo == s.buffer + [p] + rest;
      if Eligible(p, bar) {
        var s1 := AfterAttempt(setup, risk, s, p, bar);
        ProcessOrderExplained(setup, risk, s.core, p.order, bar, p.ticket);
        var a := s1.attempts[|s.attempts|];
        if a.outcome == Delayed && p.delays < MAX_DELAY_ATTEMPTS {
          DelayAccounted(s.attempts, s.emitted, s.buffer, p, rest, a);
        } else {
          OutcomeAccounted(s.attempts, s.emitted, s.buffer, p, rest, a);
        }
        DrainAccounted(setup, risk, s1, rest, bar);
      } else {
        DrainAccounted(setup, risk, s.(buffer := s.buffer + [p]), rest, bar);
      }
    }
  }

  lemma EmitOneAccounted(s: State, o: Order)
    requires Accounted(s.attempts, s.emitted, s.buffer)
    ensures Accounted(s.attempts, s.emitted + 1, s.buffer + [Pending(o, 0, s.emitted)])
  {
    var buffer := s.buffer + [Pending(o, 0, s.emitted)];
    forall t: nat | t < s.emitted + 1 ensures Waiting(buffer, t) || IsSettled(s.attempts, t) {
      if t == s.emitted {
        assert buffer[|s.buffer|].ticket == t;
      } else if Waiting(s.buffer, t) {
        var k :| 0 <= k < |s.buffer| && s.buffer[k].ticket == t;
        assert buffer[k].ticket == t;
      }
    }
  }

  lemma {:induction false} EmitAccounted(setup: Setup, s: State, orders: seq<Order>)
    requires Accounted(s.attempts, s.emitted, s.buffer) && AllExplained(setup, s)
    ensures var s' := Emit(s, orders);
      Accounted(s'.attempts, s'.emitted, s'.buffer) && AllExplained(setup, s') && s'.emitted == s.emitted + |orders|
    decreases |orders|
  {
    if orders != [] {
      EmitOneAccounted(s, orders[0]);
      EmitAccounted(setup, EmitOne(s, orders[0]), orders[1..]);
    }
  }

  lemma StepAccounted(setup: Setup, risk: RiskOracle, s: State, bar: Bar, orders: seq<Order>)
    requires Accounted(s.attempts, s.emitted, s.buffer) && AllExplained(setup, s)
    ensures var s' := Step(setup, risk, s, bar, orders);
      Accounted(s'.attempts, s'.emitted, s'.buffer) && AllExplained(setup, s')
  {
    var s1 := OpenBar(setup, s, bar);
    var started := StartDay(s, DateOf(bar.start));
    var c := started.core.(latest := started.core.latest[bar.instrument := bar.close]);
    var losses := Triggered(c.book.ids, c.book.positions, c.latest, true);
    var profits := Triggered(c.book.ids, c.book.positions, c.latest, false);
    var mid := ForceSellEach(setup, c, losses, bar, false);
    ForceSellEachOnlySells(setup, c, losses, bar, false);
    ForceSellEachOnlySells(setup, mid, profits, bar, false);
    assert s.core.book.trades == c.book.trades;
    assert c.book.trades <= mid.book.trades;
    StaysExplained(setup, s, s1);
    if bar.instrument in s1.core.prevClose {
      if FindLast(setup.instruments, bar.instrument).Some? {
        EmitAccounted(setup, s1.(core := s1.core.(book := OpenSlot(s1.core.book, bar.instrument))), orders);
      }
      var s2 := FeedStrategy(setup, s1, bar, orders);
      assert [] + s2.buffer == s2.buffer;
      DrainAccounted(setup, risk, s2.(buffer := []), s2.buffer, bar);
    }
  }

  lemma {:induction false} RunFromAccounted(setup: Setup, risk: RiskOracle, strategy: Strategy, s: State,
        bars: seq<Bar>, k: nat)
    requires k <= |bars| && Accounted(s.attempts, s.emitted, s.buffer) && AllExplained(setup, s)
    ensures var s' := RunFrom(setup, risk, strategy, s, bars, k);
      Accounted(s'.attempts, s'.emitted, s'.buffer) && AllExplained(setup, s')
    decreases |bars| - k
  {
    if k < |bars| {
      StepAccounted(setup, risk, s, bars[k], strategy(k));
      RunFromAccounted(setup, risk, strategy, Step(setup, risk, s, bars[k], strategy(k)), bars, k + 1);
    }
  }

  // ---------------------------------------------------------------- main results

  /** The number of attempts with ticket `t` that executed the order. */
  function Executions(h: seq<Outcome>): nat {
    if h == [] then 0 else Executions(h[..|h|-1]) + if h[|h|-1] == Executed then 1 else 0
  }

  lemma {:induction false} DelaysAreNotExecutions(h: seq<Outcome>)
    requires AllDelayed(h)
    ensures Executions(h) == 0
  {
    if h != [] {
      DelaysAreNotExecutions(h[..|h|-1]);
    }
  }

  /** In every run: no order is attempted more than four times; it is attempted again only after a
      delay; it executes at most once, and each execution made exactly one trade, its own. */
  lemma EveryOrderAttemptedWithinBounds(setup: Setup, risk: RiskOracle, strategy: Strategy, bars: seq<Bar>, t: nat)
    ensures var s := RunBars(setup, risk, strategy, bars);
      var h := Tries(s.attempts, t);
      && |h| <= 4
      && (forall j :: 0 <= j < |h| - 1 ==> h[j] == Delayed)
      && Executions(h) <= 1
      && AllExplained(setup, s)
  {
    RunFromAccounted(setup, risk, strategy, InitialState(setup), bars, 0);
    var s := RunBars(setup, risk, strategy, bars);
    var h := Tries(s.attempts, t);
    if t < s.emitted {
      if IsSettled(s.attempts, t) {
        DelaysAreNotExecutions(h[..|h|-1]);
        assert forall j :: 0 <= j < |h| - 1 ==> h[j] == h[..|h|-1][j];
      } else {
        var k :| 0 <= k < |s.buffer| && s.buffer[k].ticket == t;
        assert WaitsWith(s.attempts, s.buffer[k]);
        DelaysAreNotExecutions(h);
      }
    }
  }

  ghost function SettledTickets(s: State): set<nat> {
    set t: nat | t < s.emitted && IsSettled(s.attempts, t)
  }

  /** In every run, the orders emitted so far are exactly the settled ones and those still waiting. */
  lemma EmittedAreSettledOrWaiting(setup: Setup, risk: RiskOracle, strategy: Strategy, bars: seq<Bar>)
    ensures var s := RunBars(setup, risk, strategy, bars);
      s.emitted == |SettledTickets(s)| + |s.buffer|
  {
    RunFromAccounted(setup, risk, strategy, InitialState(setup), bars, 0);
    CountTickets(RunBars(setup, risk, strategy, bars));
  }

  lemma WaitingIsNotSettled(attempts: seq<Attempt>, p: Pending)
    requires WaitsWith(attempts, p)
    ensures !IsSettled(attempts, p.ticket)
  {}

  lemma CountTickets(s: State)
    requires Accounted(s.attempts, s.emitted, s.buffer)
    ensures s.emitted == |SettledTickets(s)| + |s.buffer|
  {
    var waiting := set k | 0 <= k < |s.buffer| :: s.buffer[k].ticket;
    forall k | 0 <= k < |s.buffer|
      ensures s.buffer[k].ticket < s.emitted && !IsSettled(s.attempts, s.buffer[k].ticket)
    {
      WaitingIsNotSettled(s.attempts, s.buffer[k]);
    }
    forall t: nat | t < s.emitted ensures t in waiting || IsSettled(s.attempts, t) {
      if Waiting(s.buffer, t) {
        var k :| 0 <= k < |s.buffer| && s.buffer[k].ticket == t;
      }
    }
    TicketsAreDistinct(s.buffer);
    assert waiting + SettledTickets(s) == Below(s.emitted);
    assert waiting !! SettledTickets(s);
  }

  /** The numbers below `n`. */
  ghost function Below(n: nat): (r: set<nat>)
    ensures |r| == n && forall t: nat :: t in r <==> t < n
  {
    if n == 0 then {} else Below(n - 1) + {n - 1}
  }

  lemma {:induction false} TicketsAreDistinct(buffer: seq<Pending>)
    requires forall j, k :: 0 <= j < k < |buffer| ==> buffer[j].ticket != buffer[k].ticket
    ensures |set k | 0 <= k < |buffer| :: buffer[k].ticket| == |buffer|
  {
    var all := set k | 0 <= k < |buffer| :: buffer[k].ticket;
    if buffer != [] {
      var n := |buffer| - 1;
      TicketsAreDistinct(buffer[..n]);
      var fewer := set k | 0 <= k < n :: buffer[..n][k].ticket;
      assert forall k :: 0 <= k < n ==> buffer[..n][k] == buffer[k];
      forall t ensures t in all <==> t in fewer + {buffer[n].ticket} {
        if t in fewer { var k :| 0 <= k < n && buffer[..n][k].ticket == t; assert buffer[k].ticket == t; }
        if t in all {
          var k :| 0 <= k < |buffer| && buffer[k].ticket == t;
          if k < n {
            assert buffer[..n][k].ticket == t;
          }
        }
      }
      assert all == fewer + {buffer[n].ticket};
      assert buffer[n].ticket !in fewer;
    }
  }
}
