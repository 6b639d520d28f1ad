/** What aggregation keeps: nothing in the sessions is lost or counted twice, and the aggregated bars as a
    whole have the open, high, low, close and totals of what they were made of. */
module BarAggregation {
  import opened Arithmetic
  import opened Bars
  import opened BarBuckets

  // ---------------------------------------------------------------- every in-session bar in one bucket

  function InSessionOnly(bars: seq<Bar>): seq<Bar> {
    if bars == [] then []
    else if InSession(bars[0].start) then [bars[0]] + InSessionOnly(bars[1..])
    else InSessionOnly(bars[1..])
  }

  lemma {:induction false} MembersOfBoundaries(bars: seq<Bar>, t: int, close: int, w: int)
    requires Chronological(bars) && w > 0 && t <= close
    ensures Collect(Members(bars), Boundaries(t, close, w)) == Within(bars, t, close)
    decreases close - t
  {
    if t < close {
      var end := Min(t + w, close);
      MembersOfBoundaries(bars, end, close, w);
      WithinSplit(bars, t, end, close);
      CollectConcat(Members(bars), [(t, end)], Boundaries(end, close, w));
      CollectOne(Members(bars), (t, end));
    } else {
      WithinNone(bars, t, close);
    }
  }

  lemma {:induction false} InSessionConcat(a: seq<Bar>, b: seq<Bar>)
    ensures InSessionOnly(a + b) == InSessionOnly(a) + InSessionOnly(b)
  {
    if a == [] {
      assert a + b == b;
    } else {
      var ab := a + b;
      InSessionConcat(a[1..], b);
      assert ab[0] == a[0] && ab[1..] == a[1..] + b;
      Assoc([a[0]], InSessionOnly(a[1..]), InSessionOnly(b));
    }
  }

  lemma {:induction false} InSessionAll(bars: seq<Bar>)
    requires forall k :: 0 <= k < |bars| ==> InSession(bars[k].start)
    ensures InSessionOnly(bars) == bars
  {
    if bars != [] {
      InSessionAll(bars[1..]);
    }
  }

  lemma {:induction false} InSessionNone(bars: seq<Bar>)
    requires forall k :: 0 <= k < |bars| ==> !InSession(bars[k].start)
    ensures InSessionOnly(bars) == []
  {
    if bars != [] {
      InSessionNone(bars[1..]);
    }
  }

  lemma SplitInSession(bars: seq<Bar>, a: int, b: int, c: int)
    requires Chronological(bars) && a <= b <= c
    ensures InSessionOnly(Within(bars, a, c)) == InSessionOnly(Within(bars, a, b)) + InSessionOnly(Within(bars, b, c))
  {
    WithinSplit(bars, a, b, c);
    InSessionConcat(Within(bars, a, b), Within(bars, b, c));
  }

  lemma QuietInterval(bars: seq<Bar>, lo: int, hi: int)
    requires forall t :: lo <= t < hi ==> !InSession(t)
    ensures InSessionOnly(Within(bars, lo, hi)) == []
  {
    WithinStarts(bars, lo, hi);
    InSessionNone(Within(bars, lo, hi));
  }

  /** Of an interval around one session only the session's bars remain. */
  lemma OneSession(bars: seq<Bar>, lo: int, open: int, close: int, hi: int)
    requires Chronological(bars) && lo <= open <= close <= hi
    requires forall t :: lo <= t < hi ==> (InSession(t) <==> open <= t < close)
    ensures InSessionOnly(Within(bars, lo, hi)) == Within(bars, open, close)
  {
    QuietInterval(bars, lo, open);
    QuietInterval(bars, close, hi);
    WithinStarts(bars, open, close);
    InSessionAll(Within(bars, open, close));
    SplitInSession(bars, lo, open, hi);
    SplitInSession(bars, open, close, hi);
  }

  lemma SessionIntervals(day: int, t: int)
    ensures var base := DayStart(day);
      && (base <= t < base + AFTERNOON_OPEN ==> (InSession(t) <==> base + MORNING_OPEN <= t < base + MORNING_CLOSE))
      && (base + AFTERNOON_OPEN <= t < DayStart(day + 1) ==> (InSession(t) <==> t < base + AFTERNOON_CLOSE))
  {
  }

  lemma MembersOfDay(bars: seq<Bar>, day: int, w: int)
    requires Chronological(bars) && w > 0
    ensures var base := DayStart(day);
      Collect(Members(bars), DayBoundaries(day, w)) == InSessionOnly(Within(bars, base, DayStart(day + 1)))
  {
    var base := DayStart(day);
    var mo, mc := base + MORNING_OPEN, base + MORNING_CLOSE;
    var ao, ac := base + AFTERNOON_OPEN, base + AFTERNOON_CLOSE;
    var end := DayStart(day + 1);
    CollectConcat(Members(bars), Boundaries(mo, mc, w), Boundaries(ao, ac, w));
    MembersOfBoundaries(bars, mo, mc, w);
    MembersOfBoundaries(bars, ao, ac, w);
    forall t ensures
      && (base <= t < ao ==> (InSession(t) <==> mo <= t < mc))
      && (ao <= t < end ==> (InSession(t) <==> t < ac))
    {
      SessionIntervals(day, t);
    }
    OneSession(bars, base, mo, mc, ao);
    OneSession(bars, ao, ao, ac, end);
    SplitInSession(bars, base, ao, end);
  }

  lemma {:induction false} MembersOfDays(bars: seq<Bar>, lo: int, hi: int, w: int)
    requires Chronological(bars) && w > 0 && lo <= hi
    ensures Collect(Members(bars), AllBoundaries(lo, hi, w))
         == InSessionOnly(Within(bars, DayStart(lo), DayStart(hi)))
    decreases hi - lo
  {
    if lo < hi {
      MembersOfDays(bars, lo + 1, hi, w);
      CollectConcat(Members(bars), DayBoundaries(lo, w), AllBoundaries(lo + 1, hi, w));
      MembersOfDay(bars, lo, w);
      SplitInSession(bars, DayStart(lo), DayStart(lo + 1), DayStart(hi));
    } else {
      WithinNone(bars, DayStart(lo), DayStart(hi));
    }
  }

  /** The buckets of all days a chronological stream touches hold exactly its in-session bars, each once
      and in order. */
  lemma BucketsHoldTheSession(s: seq<Bar>, w: int)
    requires Chronological(s) && s != [] && w > 0
    ensures Collect(Members(s), AllBoundaries(DateOf(s[0].start), DateOf(s[|s|-1].start) + 1, w)) == InSessionOnly(s)
  {
    var lo, hi := DateOf(s[0].start), DateOf(s[|s|-1].start) + 1;
    MembersOfDays(s, lo, hi, w);
    assert forall k :: 0 <= k < |s| ==> s[0].start <= s[k].start <= s[|s|-1].start;
    assert DayStart(lo) <= s[0].start && s[|s|-1].start < DayStart(hi);
    WithinAll(s, DayStart(lo), DayStart(hi));
  }

  // ---------------------------------------------------------------- summaries of summaries

  lemma {:induction false} VolumeConcat(a: seq<Bar>, b: seq<Bar>)
    ensures VolumeOf(a + b) == VolumeOf(a) + VolumeOf(b) && AmountOf(a + b) == AmountOf(a) + AmountOf(b)
  {
    if a == [] {
      assert a + b == b;
    } else {
      VolumeConcat(a[1..], b);
      assert (a + b)[1..] == a[1..] + b;
    }
  }

  lemma {:induction false} HighConcat(a: seq<Bar>, b: seq<Bar>)
    requires a != [] && b != []
    ensures HighOf(a + b) == if HighOf(a) >= HighOf(b) then HighOf(a) else HighOf(b)
    ensures LowOf(a + b) == if LowOf(a) <= LowOf(b) then LowOf(a) else LowOf(b)
  {
    assert (a + b)[1..] == a[1..] + b;
    if |a| == 1 {
      assert a[1..] + b == b;
    } else {
      HighConcat(a[1..], b);
    }
  }

  /** Two lists of bars with the same open, high, low, close, volume and amount as a whole. */
  ghost predicate SameOhlcv(a: seq<Bar>, b: seq<Bar>) {
    && VolumeOf(a) == VolumeOf(b) && AmountOf(a) == AmountOf(b) && (a == [] <==> b == [])
    && (a != [] && b != [] ==>
        && a[0].open == b[0].open && a[|a|-1].close == b[|b|-1].close
        && HighOf(a) == HighOf(b) && LowOf(a) == LowOf(b))
  }

  lemma SameConcat(a: seq<Bar>, b: seq<Bar>, x: seq<Bar>, y: seq<Bar>)
    requires SameOhlcv(a, x) && SameOhlcv(b, y)
    ensures SameOhlcv(a + b, x + y)
  {
    VolumeConcat(a, b);
    VolumeConcat(x, y);
    if a == [] {
      assert a + b == b && x + y == y;
    } else if b == [] {
      assert a + b == a && x + y == x;
    } else {
      HighConcat(a, b);
      HighConcat(x, y);
    }
  }

  lemma SummaryKeepsOhlcv(bars: seq<Bar>, instrument: string, c: Cycle, bucket: Bucket)
    ensures SameOhlcv(SummaryIfAny(bars, instrument, c, bucket), Within(bars, bucket.0, bucket.1))
  {
    var one := SummaryIfAny(bars, instrument, c, bucket);
    if one != [] {
      assert one[1..] == [];
      assert HighOf(one) == one[0].high && LowOf(one) == one[0].low;
    }
  }

  lemma {:induction false} CollectKeepsOhlcv(f: Collector, g: Collector, buckets: seq<Bucket>)
    requires forall b :: b in buckets ==> SameOhlcv(f(b), g(b))
    ensures SameOhlcv(Collect(f, buckets), Collect(g, buckets))
  {
    if buckets != [] {
      CollectKeepsOhlcv(f, g, buckets[1..]);
      SameConcat(f(buckets[0]), Collect(f, buckets[1..]), g(buckets[0]), Collect(g, buckets[1..]));
    }
  }

  /** Summarising bucket by bucket keeps the whole. */
  lemma SummariesKeepOhlcv(bars: seq<Bar>, buckets: seq<Bucket>, instrument: string, c: Cycle)
    ensures SameOhlcv(Collect(Summaries(bars, instrument, c), buckets), Collect(Members(bars), buckets))
  {
    var f, g := Summaries(bars, instrument, c), Members(bars);
    forall b ensures SameOhlcv(f(b), g(b)) {
      SummaryKeepsOhlcv(bars, instrument, c, b);
    }
    CollectKeepsOhlcv(f, g, buckets);
  }

  function VolumeInSession(b: Bar): int {
    if InSession(b.start) then b.volume else 0
  }

  function AmountInSession(b: Bar): real {
    if InSession(b.start) then b.amount else 0.0
  }

  lemma TotalsInSession(b: Bar, bars: seq<Bar>)
    ensures VolumeOf(InSessionOnly([b] + bars)) == VolumeInSession(b) + VolumeOf(InSessionOnly(bars))
    ensures AmountOf(InSessionOnly([b] + bars)) == AmountInSession(b) + AmountOf(InSessionOnly(bars))
  {
    assert ([b] + bars)[1..] == bars;
    assert ([b] + InSessionOnly(bars))[1..] == InSessionOnly(bars);
  }

  lemma {:induction false} InsertInSession(b: Bar, bars: seq<Bar>)
    ensures var x := InSessionOnly(InsertByStart(b, bars));
      VolumeOf(x) == VolumeInSession(b) + VolumeOf(InSessionOnly(bars))
      && AmountOf(x) == AmountInSession(b) + AmountOf(InSessionOnly(bars))
  {
    TotalsInSession(b, bars);
    if bars != [] && b.start > bars[0].start {
      InsertInSession(b, bars[1..]);
      TotalsInSession(bars[0], InsertByStart(b, bars[1..]));
      TotalsInSession(bars[0], bars[1..]);
      assert bars == [bars[0]] + bars[1..];
    }
  }

  lemma {:induction false} SortKeepsTotals(bars: seq<Bar>)
    ensures var x := InSessionOnly(SortByStart(bars)); var y := InSessionOnly(bars);
      VolumeOf(x) == VolumeOf(y) && AmountOf(x) == AmountOf(y)
  {
    if bars != [] {
      SortKeepsTotals(bars[1..]);
      InsertInSession(bars[0], SortByStart(bars[1..]));
      TotalsInSession(bars[0], bars[1..]);
      assert bars == [bars[0]] + bars[1..];
    }
  }

  lemma SortedAsAWhole(s: seq<Bar>, c: Cycle)
    requires Chronological(s) && s != []
    ensures SameOhlcv(AggregatedSorted(s, c), InSessionOnly(s))
  {
    BucketsHoldTheSession(s, CycleSeconds(c));
    SummariesKeepOhlcv(s, AllBoundaries(DateOf(s[0].start), DateOf(s[|s|-1].start) + 1, CycleSeconds(c)),
      s[0].instrument, c);
  }

  /** Aggregated bars as a whole: the open of the first in-session bar, the close of the last, the highest
      high, the lowest low and the totals. */
  lemma AggregatedAsAWhole(bars: seq<Bar>, c: Cycle)
    requires c != M1
    ensures SameOhlcv(Aggregated(bars, c), InSessionOnly(SortByStart(bars)))
  {
    if bars != [] {
      SortByStartIsStable(bars);
      SortedAsAWhole(SortByStart(bars), c);
    }
  }

  /** Volume and amount are conserved: the aggregated bars carry exactly what the in-session bars carry,
      whatever the order, spacing or repetition of the input. */
  lemma AggregationConserves(bars: seq<Bar>, c: Cycle)
    requires c != M1
    ensures VolumeOf(Aggregated(bars, c)) == VolumeOf(InSessionOnly(bars))
    ensures AmountOf(Aggregated(bars, c)) == AmountOf(InSessionOnly(bars))
  {
    AggregatedAsAWhole(bars, c);
    SortKeepsTotals(bars);
  }
}
