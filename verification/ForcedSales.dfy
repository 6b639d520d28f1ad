/** What stop-loss and take-profit levels and a flatten by risk do to each position. */
module ForcedSales {
  import opened Arithmetic
  import opened Wrappers
  import opened Bars
  import opened Matcher
  import opened Portfolio
  import opened Engine

  /** The latest price is at or through the level. */
  predicate Hit(p: Position, price: real, loss: bool) {
    && p.quantity > 0
    && (loss ==> p.stopLoss.Some? && price <= p.stopLoss.value)
    && (!loss ==> p.takeProfit.Some? && price >= p.takeProfit.value)
  }

  /** A position is triggered exactly if it has shares, its instrument has a price, and the price is down to its
      stop-loss, or up to its take-profit. */
  lemma {:induction false} TriggeredExactlyWhen(ids: seq<string>, positions: map<string, Position>,
      prices: map<string, real>, loss: bool, i: string)
    ensures i in Triggered(ids, positions, prices, loss) <==>
      i in ids && i in positions && i in prices && Hit(positions[i], prices[i], loss)
  {
    if ids != [] {
      TriggeredExactlyWhen(ids[..|ids|-1], positions, prices, loss, i);
    }
  }

  predicate Distinct(ids: seq<string>) {
    forall j, k :: 0 <= j < k < |ids| ==> ids[j] != ids[k]
  }

  lemma {:induction false} TriggeredIsDistinct(ids: seq<string>, positions: map<string, Position>,
      prices: map<string, real>, loss: bool)
    requires Distinct(ids)
    ensures Distinct(Triggered(ids, positions, prices, loss))
  {
    if ids != [] {
      var front, last := ids[..|ids|-1], ids[|ids|-1];
      TriggeredIsDistinct(front, positions, prices, loss);
      TriggeredExactlyWhen(front, positions, prices, loss, last);
      assert forall k :: 0 <= k < |front| ==> front[k] == ids[k];
    }
  }

  // ---------------------------------------------------------------- one forced sale

  /** What a forced sale does to its own position: nothing, or it sells some settled whole lots and clears the
      levels. */
  ghost predicate Sold(lot: LotSize, p: Position, p': Position) {
    || p' == p
    || (p'.quantity < p.quantity && p.quantity - p'.quantity <= p.quantity - p.todayBought
        && LotMultiple(p.quantity - p'.quantity, lot)
        && p' == p.(quantity := p'.quantity, stopLoss := None, takeProfit := None))
  }

  /** The bar admits a sale: it traded and its price is within the daily limit. */
  predicate Admits(setup: Setup, c: Core, i: string, bar: Bar, instrument: Instrument) {
    bar.volume > 0 && setup.matching.limits.WithinLimit(bar.open - setup.matching.costs.slippage,
      if i in c.prevClose then c.prevClose[i] else bar.open, instrument.isSt, instrument.boardType)
  }

  /** What the matcher makes of selling everything of the instrument. */
  function SaleOf(setup: Setup, c: Core, i: string, bar: Bar, instrument: Instrument): MatchResult {
    var p := Held(c.book, i);
    MatchOrder(setup.matching, SellAll(i), bar, if i in c.prevClose then c.prevClose[i] else bar.open, instrument,
      p.quantity, p.todayBought, c.book.cash)
  }

  lemma {:induction false} ForceSellBooks(setup: Setup, c: Core, i: string, bar: Bar, instrument: Instrument)
    ensures var c' := ForceSell(setup, c, i, bar, Some(instrument));
      var p, r := Held(c.book, i), SaleOf(setup, c, i, bar, instrument);
      && (forall j :: j != i ==> Held(c'.book, j) == Held(c.book, j))
      && Held(c'.book, i) == if p.quantity > 0 && r.Fill?
           then p.(quantity := p.quantity - r.quantity, stopLoss := None, takeProfit := None) else p
  {
    assert forall j :: Held(OpenSlot(c.book, i), j) == Held(c.book, j);
  }

  lemma {:induction false} SaleIsGreatest(setup: Setup, c: Core, i: string, bar: Bar, instrument: Instrument, n: int)
    requires n > 0 && LotMultiple(n, setup.matching.lotSize)
    ensures var p, r, lot := Held(c.book, i), SaleOf(setup, c, i, bar, instrument), setup.matching.lotSize;
      && (r.Fill? ==> Admits(setup, c, i, bar, instrument) && 0 < r.quantity <= p.quantity - p.todayBought
                      && LotMultiple(r.quantity, lot))
      && (Admits(setup, c, i, bar, instrument) && n <= p.quantity - p.todayBought
            && n as real <= bar.volume as real * setup.matching.participationRate
          ==> r.Fill? && n <= r.quantity)
  {
    var p := Held(c.book, i);
    var last := if i in c.prevClose then c.prevClose[i] else bar.open;
    FillIsGreatestLot(setup.matching, SellAll(i), bar, last, instrument, p.quantity, p.todayBought, c.book.cash, n);
  }

  /** A forced sale touches no other position; of its own it sells settled whole lots, as many as the bar's volume
      share allows, and then clears the levels; if it cannot sell it leaves the position and its levels. */
  lemma {:induction false} ForceSellTerms(setup: Setup, c: Core, i: string, bar: Bar, instrument: Option<Instrument>,
      n: nat)
    ensures var c' := ForceSell(setup, c, i, bar, instrument);
      var p, p', lot := Held(c.book, i), Held(c'.book, i), setup.matching.lotSize;
      && (forall j :: j != i ==> Held(c'.book, j) == Held(c.book, j))
      && Sold(lot, p, p')
      && (p' != p ==> instrument.Some? && Admits(setup, c, i, bar, instrument.value))
      && (instrument.Some? && Admits(setup, c, i, bar, instrument.value)
            && 0 < n <= p.quantity - p.todayBought && p.quantity > 0 && LotMultiple(n, lot)
            && n as real <= bar.volume as real * setup.matching.participationRate
          ==> p.quantity - p'.quantity >= n)
  {
    if instrument.Some? {
      var lot := setup.matching.lotSize;
      MultipleDivides(1, lot);
      ForceSellBooks(setup, c, i, bar, instrument.value);
      SaleIsGreatest(setup, c, i, bar, instrument.value, if n > 0 && LotMultiple(n, lot) then n else lot);
    }
  }

  /** A forced sale depends on nothing but its own position and the previous close. */
  lemma {:induction false} ForceSellIsLocal(setup: Setup, c: Core, d: Core, i: string, bar: Bar,
      instrument: Option<Instrument>)
    requires Held(c.book, i) == Held(d.book, i) && c.prevClose == d.prevClose
    ensures Held(ForceSell(setup, c, i, bar, instrument).book, i)
        == Held(ForceSell(setup, d, i, bar, instrument).book, i)
    ensures ForceSell(setup, c, i, bar, instrument).prevClose == c.prevClose
  {
  }

  // ---------------------------------------------------------------- a list of forced sales

  function Known(setup: Setup, i: string, first: bool): Option<Instrument> {
    if first then FindFirst(setup.instruments, i) else FindLast(setup.instruments, i)
  }

  /** Forced sales one after another: each listed position is sold as if it alone were, no other is touched. */
  lemma {:induction false} EachSoldAlone(setup: Setup, c: Core, ids: seq<string>, bar: Bar, first: bool, i: string)
    requires Distinct(ids)
    ensures var c' := ForceSellEach(setup, c, ids, bar, first);
      && c'.prevClose == c.prevClose
      && Held(c'.book, i) == if i in ids then Held(ForceSell(setup, c, i, bar, Known(setup, i, first)).book, i)
                             else Held(c.book, i)
    decreases |ids|
  {
    if ids != [] {
      var j, rest := ids[0], ids[1..];
      var c1 := ForceSell(setup, c, j, bar, Known(setup, j, first));
      ForceSellTerms(setup, c, j, bar, Known(setup, j, first), 0);
      ForceSellIsLocal(setup, c, c, j, bar, Known(setup, j, first));
      EachSoldAlone(setup, c1, rest, bar, first, i);
      if i != j {
        ForceSellIsLocal(setup, c1, c, i, bar, Known(setup, i, first));
      } else {
        assert i !in rest;
      }
    }
  }

  /** A flatten by risk sells every position as a forced sale of it alone would. */
  lemma {:induction false} FlattenSellsEach(setup: Setup, c: Core, bar: Bar, i: string)
    requires WellFormed(c.book)
    ensures Held(FlattenAll(setup, c, bar).book, i)
         == Held(ForceSell(setup, c, i, bar, FindFirst(setup.instruments, i)).book, i)
  {
    EachSoldAlone(setup, c, c.book.ids, bar, true, i);
    if i !in c.book.ids {
      assert Held(c.book, i) == FLAT;
      ForceSellTerms(setup, c, i, bar, FindFirst(setup.instruments, i), 0);
    }
  }

  /** The position is down to its stop-loss, or up to its take-profit, at the latest price. */
  predicate AtLevel(c: Core, i: string) {
    i in c.latest && (Hit(Held(c.book, i), c.latest[i], true) || Hit(Held(c.book, i), c.latest[i], false))
  }

  /** On a completed bar exactly the positions at one of their levels are sold; such a position is sold at least as
      far as a whole number of its settled lots fits into the bar's volume share. On a bar that is not completed nothing
      is. */
  lemma {:induction false} LevelsAreActedOn(setup: Setup, c: Core, bar: Bar, i: string, n: nat)
    requires WellFormed(c.book)
    ensures var c' := ForcedExits(setup, c, bar);
      var p, p', lot, instrument := Held(c.book, i), Held(c'.book, i), setup.matching.lotSize,
          FindLast(setup.instruments, i);
      && p'.quantity <= p.quantity
      && (!bar.completed || !AtLevel(c, i) ==> p' == p)
      && (bar.completed && AtLevel(c, i) && instrument.Some? && Admits(setup, c, i, bar, instrument.value)
            && 0 < n <= p.quantity - p.todayBought && LotMultiple(n, lot)
            && n as real <= bar.volume as real * setup.matching.participationRate
          ==> p.quantity - p'.quantity >= n)
  {
    if bar.completed {
      var losses := Triggered(c.book.ids, c.book.positions, c.latest, true);
      var profits := Triggered(c.book.ids, c.book.positions, c.latest, false);
      var mid := ForceSellEach(setup, c, losses, bar, false);
      var instrument := FindLast(setup.instruments, i);
      TriggeredIsDistinct(c.book.ids, c.book.positions, c.latest, true);
      TriggeredIsDistinct(c.book.ids, c.book.positions, c.latest, false);
      TriggeredExactlyWhen(c.book.ids, c.book.positions, c.latest, true, i);
      TriggeredExactlyWhen(c.book.ids, c.book.positions, c.latest, false, i);
      EachSoldAlone(setup, c, losses, bar, false, i);
      EachSoldAlone(setup, mid, profits, bar, false, i);
      ForceSellTerms(setup, c, i, bar, instrument, n);
      ForceSellTerms(setup, mid, i, bar, instrument, n);
    }
  }
}
