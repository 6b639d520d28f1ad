/** Aggregating aggregated bars. */
module BarTwoStep {
  import opened Arithmetic
  import opened Bars
  import opened BarBuckets
  import opened BarAggregation

  // ---------------------------------------------------------------- finer buckets

  /** Every bucket cut into buckets of width `w`. */
  function Refine(buckets: seq<Bucket>, w: int): seq<Bucket>
    requires w > 0
    decreases |buckets|
  {
    if buckets == [] then [] else Boundaries(buckets[0].0, buckets[0].1, w) + Refine(buckets[1..], w)
  }

  predicate Finer(fine: Cycle, coarse: Cycle) {
    CycleSeconds(fine) <= CycleSeconds(coarse)
  }

  lemma FinerDivides(n: int, fine: Cycle, coarse: Cycle)
    requires Finer(fine, coarse) && WholeCycles(n, coarse)
    ensures WholeCycles(n, fine)
  {
    Divisors(n);
  }

  lemma Divisors(n: int)
    ensures n % 3600 == 0 ==> n % 1800 == 0
    ensures n % 1800 == 0 ==> n % 900 == 0
    ensures n % 900 == 0 ==> n % 300 == 0
    ensures n % 300 == 0 ==> n % 60 == 0
  {
    if n % 3600 == 0 { DividesThrough(n, 1800, 2); }
    if n % 1800 == 0 { DividesThrough(n, 900, 2); }
    if n % 900 == 0 { DividesThrough(n, 300, 3); }
    if n % 300 == 0 { DividesThrough(n, 60, 5); }
  }

  lemma {:induction false} BoundariesJoin(a: int, b: int, c: int, fine: Cycle)
    requires a <= b <= c && WholeCycles(b - a, fine)
    ensures var w := CycleSeconds(fine); Boundaries(a, b, w) + Boundaries(b, c, w) == Boundaries(a, c, w)
    decreases b - a
  {
    if a < b {
      var w := CycleSeconds(fine);
      AlignedStep(b - a, fine);
      BoundariesJoin(a + w, b, c, fine);
      Assoc([(a, a + w)], Boundaries(a + w, b, w), Boundaries(b, c, w));
    }
  }

  lemma {:induction false} RefineBoundaries(t: int, close: int, fine: Cycle, coarse: Cycle)
    requires t <= close && WholeCycles(close - t, coarse) && Finer(fine, coarse)
    ensures Refine(Boundaries(t, close, CycleSeconds(coarse)), CycleSeconds(fine))
        == Boundaries(t, close, CycleSeconds(fine))
    decreases close - t
  {
    if t < close {
      var w := CycleSeconds(coarse);
      AlignedStep(close - t, coarse);
      RefineBoundaries(t + w, close, fine, coarse);
      FinerDivides(w, fine, coarse);
      BoundariesJoin(t, t + w, close, fine);
      assert Boundaries(t, close, w)[1..] == Boundaries(t + w, close, w);
    }
  }

  lemma {:induction false} RefineConcat(a: seq<Bucket>, b: seq<Bucket>, w: int)
    requires w > 0
    ensures Refine(a + b, w) == Refine(a, w) + Refine(b, w)
  {
    if a == [] {
      assert a + b == b;
    } else {
      var ab := a + b;
      RefineConcat(a[1..], b, w);
      assert ab[0] == a[0] && ab[1..] == a[1..] + b;
      Assoc(Boundaries(a[0].0, a[0].1, w), Refine(a[1..], w), Refine(b, w));
    }
  }

  lemma RefineDay(day: int, fine: Cycle, coarse: Cycle)
    requires Finer(fine, coarse)
    ensures Refine(DayBoundaries(day, CycleSeconds(coarse)), CycleSeconds(fine))
        == DayBoundaries(day, CycleSeconds(fine))
  {
    var base, wc, wf := DayStart(day), CycleSeconds(coarse), CycleSeconds(fine);
    RefineConcat(Boundaries(base + MORNING_OPEN, base + MORNING_CLOSE, wc),
      Boundaries(base + AFTERNOON_OPEN, base + AFTERNOON_CLOSE, wc), wf);
    RefineBoundaries(base + MORNING_OPEN, base + MORNING_CLOSE, fine, coarse);
    RefineBoundaries(base + AFTERNOON_OPEN, base + AFTERNOON_CLOSE, fine, coarse);
  }

  lemma {:induction false} RefineDays(lo: int, hi: int, fine: Cycle, coarse: Cycle)
    requires Finer(fine, coarse)
    ensures Refine(AllBoundaries(lo, hi, CycleSeconds(coarse)), CycleSeconds(fine))
        == AllBoundaries(lo, hi, CycleSeconds(fine))
    decreases hi - lo
  {
    if lo < hi {
      RefineDays(lo + 1, hi, fine, coarse);
      RefineConcat(DayBoundaries(lo, CycleSeconds(coarse)), AllBoundaries(lo + 1, hi, CycleSeconds(coarse)),
        CycleSeconds(fine));
      RefineDay(lo, fine, coarse);
    }
  }

  lemma TailInside(buckets: seq<Bucket>, mid: int, hi: int)
    requires buckets != [] && Ordered(buckets) && Inside(buckets, mid, hi)
    ensures mid <= buckets[0].0 < buckets[0].1
    ensures Ordered(buckets[1..]) && Inside(buckets[1..], buckets[0].1, hi)
  {
  }

  lemma OrderedConcat(p: seq<Bucket>, q: seq<Bucket>, lo: int, a: int, b: int)
    requires Ordered(p) && Inside(p, lo, a) && Ordered(q) && Inside(q, a, b) && lo <= a <= b
    ensures Ordered(p + q) && Inside(p + q, lo, b)
  {
  }

  /** Cutting ordered buckets leaves them inside the same interval. */
  lemma {:induction false} RefineInside(buckets: seq<Bucket>, w: int, lo: int, hi: int)
    requires w > 0 && Ordered(buckets) && Inside(buckets, lo, hi)
    ensures Ordered(Refine(buckets, w)) && Inside(Refine(buckets, w), lo, hi)
  {
    if buckets != [] {
      var (a, b) := buckets[0];
      TailInside(buckets, lo, hi);
      BoundariesTile(a, b, w, 0);
      RefineInside(buckets[1..], w, b, hi);
      assert b <= hi;
      OrderedConcat(Boundaries(a, b, w), Refine(buckets[1..], w), lo, b, hi);
    }
  }

  // ---------------------------------------------------------------- days without bars

  lemma {:induction false} AllBoundariesJoin(lo: int, mid: int, hi: int, w: int)
    requires lo <= mid <= hi && w > 0
    ensures AllBoundaries(lo, mid, w) + AllBoundaries(mid, hi, w) == AllBoundaries(lo, hi, w)
    decreases mid - lo
  {
    if lo < mid {
      AllBoundariesJoin(lo + 1, mid, hi, w);
      Assoc(DayBoundaries(lo, w), AllBoundaries(lo + 1, mid, w), AllBoundaries(mid, hi, w));
    }
  }

  /** `f` finds nothing on the days from `lo` up to, not including, `hi`. */
  ghost predicate Silent(f: Collector, lo: int, hi: int) {
    forall b: Bucket :: DayStart(lo) <= b.0 && b.1 <= DayStart(hi) ==> f(b) == []
  }

  lemma SilentDays(f: Collector, lo: int, hi: int, c: Cycle)
    requires Silent(f, lo, hi)
    ensures Collect(f, AllBoundaries(lo, hi, CycleSeconds(c))) == []
  {
    AllBoundariesOrdered(lo, hi, c);
    CollectNothing(f, AllBoundaries(lo, hi, CycleSeconds(c)));
  }

  /** Silent days before and after add nothing. */
  lemma WiderRange(f: Collector, lo: int, lo': int, hi': int, hi: int, c: Cycle)
    requires lo <= lo' <= hi' <= hi && Silent(f, lo, lo') && Silent(f, hi', hi)
    ensures Collect(f, AllBoundaries(lo, hi, CycleSeconds(c))) == Collect(f, AllBoundaries(lo', hi', CycleSeconds(c)))
  {
    var w := CycleSeconds(c);
    var before, there, after := AllBoundaries(lo, lo', w), AllBoundaries(lo', hi', w), AllBoundaries(hi', hi, w);
    AllBoundariesJoin(lo, lo', hi, w);
    AllBoundariesJoin(lo', hi', hi, w);
    CollectConcat(f, before, there + after);
    CollectConcat(f, there, after);
    SilentDays(f, lo, lo', c);
    SilentDays(f, hi', hi, c);
  }

  lemma NoBarsNoSummaries(bars: seq<Bar>, i: string, c: Cycle, lo: int, hi: int)
    requires forall k :: 0 <= k < |bars| ==> !(lo <= DateOf(bars[k].start) < hi)
    ensures Silent(Summaries(bars, i, c), lo, hi)
  {
    forall b: Bucket | DayStart(lo) <= b.0 && b.1 <= DayStart(hi) ensures Summaries(bars, i, c)(b) == [] {
      NotThatDay(bars, lo, hi);
      WithinNone(bars, b.0, b.1);
    }
  }

  lemma NotThatDay(bars: seq<Bar>, lo: int, hi: int)
    requires forall k :: 0 <= k < |bars| ==> !(lo <= DateOf(bars[k].start) < hi)
    ensures forall k :: 0 <= k < |bars| ==> !(DayStart(lo) <= bars[k].start < DayStart(hi))
  {
    forall k | 0 <= k < |bars| ensures !(DayStart(lo) <= bars[k].start < DayStart(hi)) {
      assert !(lo <= DateOf(bars[k].start) < hi);
    }
  }

  // ---------------------------------------------------------------- what is collected

  /** What `f` takes from a bucket starts in that bucket. */
  ghost predicate InPlace(f: Collector) {
    forall b: Bucket :: |f(b)| <= 1 && forall x :: x in f(b) ==> b.0 == x.start < b.1
  }

  lemma SummariesInPlace(bars: seq<Bar>, i: string, c: Cycle, b: Bucket)
    ensures forall x :: x in SummaryIfAny(bars, i, c, b) ==> b.0 == x.start < b.1 && x.instrument == i
  {
    WithinStarts(bars, b.0, b.1);
    var inside := Within(bars, b.0, b.1);
    assert inside != [] ==> b.0 <= inside[0].start < b.1;
  }

  lemma {:induction false} CollectedInOrder(f: Collector, buckets: seq<Bucket>, lo: int, hi: int)
    requires InPlace(f) && Ordered(buckets) && Inside(buckets, lo, hi)
    ensures Chronological(Collect(f, buckets))
    ensures forall k :: 0 <= k < |Collect(f, buckets)| ==> lo <= Collect(f, buckets)[k].start < hi
  {
    if buckets != [] {
      var b := buckets[0];
      CollectedInOrder(f, buckets[1..], b.1, hi);
      assert forall x :: x in f(b) ==> lo <= x.start < b.1;
      InOrderConcat(f(b), Collect(f, buckets[1..]), lo, b.1, hi);
    }
  }

  lemma InOrderConcat(a: seq<Bar>, b: seq<Bar>, lo: int, mid: int, hi: int)
    requires |a| <= 1 && (forall x :: x in a ==> lo <= x.start < mid) && lo <= mid <= hi
    requires Chronological(b) && forall k :: 0 <= k < |b| ==> mid <= b[k].start < hi
    ensures Chronological(a + b)
    ensures forall k :: 0 <= k < |a + b| ==> lo <= (a + b)[k].start < hi
  {
    assert forall k :: 0 <= k < |a| ==> a[k] in a;
  }

  // ---------------------------------------------------------------- two steps

  function Unfinished(bars: seq<Bar>): seq<Bar> {
    if bars == [] then [] else [bars[0].(completed := false)] + Unfinished(bars[1..])
  }

  lemma {:induction false} UnfinishedConcat(a: seq<Bar>, b: seq<Bar>)
    ensures Unfinished(a + b) == Unfinished(a) + Unfinished(b)
  {
    if a == [] {
      assert a + b == b;
    } else {
      var ab := a + b;
      UnfinishedConcat(a[1..], b);
      assert ab[0] == a[0] && ab[1..] == a[1..] + b;
      Assoc([a[0].(completed := false)], Unfinished(a[1..]), Unfinished(b));
    }
  }

  lemma OnlyTheMiddle(ps: seq<Bar>, qs: seq<Bar>, rs: seq<Bar>, a: int, b: int)
    requires forall k :: 0 <= k < |ps| ==> ps[k].start < a
    requires forall k :: 0 <= k < |qs| ==> a <= qs[k].start < b
    requires forall k :: 0 <= k < |rs| ==> b <= rs[k].start
    ensures Within(ps + (qs + rs), a, b) == qs
  {
    WithinConcat(ps, qs + rs, a, b);
    WithinConcat(qs, rs, a, b);
    WithinNone(ps, a, b);
    WithinAll(qs, a, b);
    WithinNone(rs, a, b);
  }

  /** Of everything collected, what starts in one coarse bucket was collected from its fine buckets. */
  lemma OnlyThisBucket(f: Collector, p: seq<Bucket>, q: seq<Bucket>, r: seq<Bucket>, lo: int, a: int, b: int, hi: int)
    requires InPlace(f) && Ordered(p) && Ordered(q) && Ordered(r)
    requires Inside(p, lo, a) && Inside(q, a, b) && Inside(r, b, hi)
    ensures Within(Collect(f, p + (q + r)), a, b) == Collect(f, q)
  {
    CollectConcat(f, p, q + r);
    CollectConcat(f, q, r);
    CollectedInOrder(f, p, lo, a);
    CollectedInOrder(f, q, a, b);
    CollectedInOrder(f, r, b, hi);
    OnlyTheMiddle(Collect(f, p), Collect(f, q), Collect(f, r), a, b);
  }

  lemma {:induction false} WideBucketsAreFew(bs: seq<Bucket>, w: int)
    requires FullWidth(bs, w) && w >= 300
    ensures |bs| * 300 <= Duration(bs)
  {
    if bs != [] {
      WideBucketsAreFew(bs[1..], w);
    }
  }

  lemma FineBarsAreFew(bucket: Bucket, fine: Cycle, coarse: Cycle)
    requires Finer(fine, coarse) && fine != M1 && bucket.1 - bucket.0 == CycleSeconds(coarse)
    ensures |Boundaries(bucket.0, bucket.1, CycleSeconds(fine))| < (bucket.1 - bucket.0) / 60
  {
    FinerDivides(bucket.1 - bucket.0, fine, coarse);
    BoundariesFull(bucket.0, bucket.1, fine);
    WideBucketsAreFew(Boundaries(bucket.0, bucket.1, CycleSeconds(fine)), CycleSeconds(fine));
  }

  /** Two lists with the same open, high, low, close, volume and amount, the first too short to be complete. */
  lemma SameSummary(g: seq<Bar>, x: seq<Bar>, i: string, c: Cycle, bucket: Bucket)
    requires SameOhlcv(g, x) && x != [] && |g| < (bucket.1 - bucket.0) / 60
    ensures g != [] && Summary(g, i, c, bucket) == Summary(x, i, c, bucket).(completed := false)
  {
  }

  /** One coarse bucket summarised from its fine bars: everything but the completeness flag agrees with
      summarising the minutes, because fewer fine bars than minutes fit in it. */
  lemma BucketInTwoSteps(f: seq<Bar>, s: seq<Bar>, bucket: Bucket, i: string, fine: Cycle, coarse: Cycle)
    requires Chronological(s) && Finer(fine, coarse) && fine != M1 && bucket.1 - bucket.0 == CycleSeconds(coarse)
    requires Within(f, bucket.0, bucket.1)
          == Collect(Summaries(s, i, fine), Boundaries(bucket.0, bucket.1, CycleSeconds(fine)))
    ensures SummaryIfAny(f, i, coarse, bucket) == Unfinished(SummaryIfAny(s, i, coarse, bucket))
  {
    var q := Boundaries(bucket.0, bucket.1, CycleSeconds(fine));
    var g, x := Within(f, bucket.0, bucket.1), Within(s, bucket.0, bucket.1);
    MembersOfBoundaries(s, bucket.0, bucket.1, CycleSeconds(fine));
    SummariesKeepOhlcv(s, q, i, fine);
    CollectAtMostOneEach(Summaries(s, i, fine), q);
    FineBarsAreFew(bucket, fine, coarse);
    if x != [] {
      SameSummary(g, x, i, coarse, bucket);
      var one := SummaryIfAny(s, i, coarse, bucket);
      assert one[1..] == [];
    }
  }

  /** The second step, bucket for bucket: `f` collects the fine bars, `g` and `h` summarise a coarse bucket
      from them and from the minutes. */
  ghost predicate Repeats(f: Collector, fineBars: seq<Bar>, g: Collector, h: Collector, w: int, b: Bucket) {
    w > 0 && (Within(fineBars, b.0, b.1) == Collect(f, Boundaries(b.0, b.1, w)) ==> g(b) == Unfinished(h(b)))
  }

  /** `p` are the fine buckets before the coarse ones. */
  lemma {:induction false} BucketsInTwoSteps(f: Collector, fineBars: seq<Bar>, g: Collector, h: Collector, w: int,
      p: seq<Bucket>, buckets: seq<Bucket>, lo: int, mid: int, hi: int)
    requires w > 0 && InPlace(f) && (forall b :: b in buckets ==> Repeats(f, fineBars, g, h, w, b))
    requires Ordered(p) && Inside(p, lo, mid) && Ordered(buckets) && Inside(buckets, mid, hi) && lo <= mid
    requires fineBars == Collect(f, p + Refine(buckets, w))
    ensures Collect(g, buckets) == Unfinished(Collect(h, buckets))
    decreases |buckets|
  {
    if buckets != [] {
      var (a, b) := buckets[0];
      var q, r := Boundaries(a, b, w), Refine(buckets[1..], w);
      TailInside(buckets, mid, hi);
      BoundariesTile(a, b, w, 0);
      RefineInside(buckets[1..], w, b, hi);
      OnlyThisBucket(f, p, q, r, lo, a, b, hi);
      assert Repeats(f, fineBars, g, h, w, buckets[0]);
      Assoc(p, q, r);
      OrderedConcat(p, q, lo, a, b);
      BucketsInTwoSteps(f, fineBars, g, h, w, p + q, buckets[1..], lo, b, hi);
      UnfinishedConcat(h(buckets[0]), Collect(h, buckets[1..]));
    }
  }

  lemma {:induction false} AllBoundariesFull(lo: int, hi: int, c: Cycle)
    ensures FullWidth(AllBoundaries(lo, hi, CycleSeconds(c)), CycleSeconds(c))
    decreases hi - lo
  {
    if lo < hi {
      AllBoundariesFull(lo + 1, hi, c);
      DayBoundariesFull(lo, c);
    }
  }

  lemma SummariesAreInPlace(s: seq<Bar>, i: string, c: Cycle)
    ensures InPlace(Summaries(s, i, c))
  {
    forall b: Bucket
      ensures |Summaries(s, i, c)(b)| <= 1 && forall x :: x in Summaries(s, i, c)(b) ==> b.0 == x.start < b.1
    {
      SummariesInPlace(s, i, c, b);
    }
  }

  lemma SortedInTwoSteps(s: seq<Bar>, i: string, fine: Cycle, coarse: Cycle, lo: int, hi: int)
    requires Chronological(s) && Finer(fine, coarse) && fine != M1 && lo <= hi
    ensures var fineBars := Collect(Summaries(s, i, fine), AllBoundaries(lo, hi, CycleSeconds(fine)));
      Collect(Summaries(fineBars, i, coarse), AllBoundaries(lo, hi, CycleSeconds(coarse)))
      == Unfinished(Collect(Summaries(s, i, coarse), AllBoundaries(lo, hi, CycleSeconds(coarse))))
  {
    var f, w := Summaries(s, i, fine), CycleSeconds(fine);
    var fineBars := Collect(f, AllBoundaries(lo, hi, w));
    var g, h := Summaries(fineBars, i, coarse), Summaries(s, i, coarse);
    var bs := AllBoundaries(lo, hi, CycleSeconds(coarse));
    RefineDays(lo, hi, fine, coarse);
    AllBoundariesOrdered(lo, hi, coarse);
    AllBoundariesFull(lo, hi, coarse);
    SummariesAreInPlace(s, i, fine);
    forall b | b in bs ensures Repeats(f, fineBars, g, h, w, b) {
      if Within(fineBars, b.0, b.1) == Collect(f, Boundaries(b.0, b.1, w)) {
        BucketInTwoSteps(fineBars, s, b, i, fine, coarse);
      }
    }
    assert [] + Refine(bs, w) == Refine(bs, w);
    BucketsInTwoSteps(f, fineBars, g, h, w, [], bs, DayStart(lo), DayStart(lo), DayStart(hi));
  }

  lemma {:induction false} CollectedInstruments(s: seq<Bar>, i: string, c: Cycle, buckets: seq<Bucket>)
    ensures forall k :: 0 <= k < |Collect(Summaries(s, i, c), buckets)| ==>
        Collect(Summaries(s, i, c), buckets)[k].instrument == i
  {
    if buckets != [] {
      CollectedInstruments(s, i, c, buckets[1..]);
      SummariesInPlace(s, i, c, buckets[0]);
    }
  }

  lemma FineDates(s: seq<Bar>, fine: Cycle)
    requires Chronological(s) && s != []
    ensures var f := AggregatedSorted(s, fine);
      && Chronological(f)
      && (forall k :: 0 <= k < |f| ==> DateOf(s[0].start) <= DateOf(f[k].start) < DateOf(s[|s|-1].start) + 1)
      && (f != [] ==> f[0].instrument == s[0].instrument)
  {
    var lo, hi := DateOf(s[0].start), DateOf(s[|s|-1].start) + 1;
    var bs := AllBoundaries(lo, hi, CycleSeconds(fine));
    AllBoundariesOrdered(lo, hi, fine);
    SummariesAreInPlace(s, s[0].instrument, fine);
    CollectedInOrder(Summaries(s, s[0].instrument, fine), bs, DayStart(lo), DayStart(hi));
    CollectedInstruments(s, s[0].instrument, fine, bs);
  }

  lemma DatesBetween(f: seq<Bar>)
    requires Chronological(f) && f != []
    ensures forall k :: 0 <= k < |f| ==> DateOf(f[0].start) <= DateOf(f[k].start) < DateOf(f[|f|-1].start) + 1
  {
  }

  /** Aggregating over a wider range of days than the bars need. */
  lemma FineRange(f: seq<Bar>, lo: int, hi: int, c: Cycle)
    requires Chronological(f) && f != []
    requires lo <= DateOf(f[0].start) && DateOf(f[|f|-1].start) + 1 <= hi
    ensures AggregatedSorted(f, c) == Collect(Summaries(f, f[0].instrument, c), AllBoundaries(lo, hi, CycleSeconds(c)))
  {
    var first, last := DateOf(f[0].start), DateOf(f[|f|-1].start) + 1;
    DatesBetween(f);
    NoBarsNoSummaries(f, f[0].instrument, c, lo, first);
    NoBarsNoSummaries(f, f[0].instrument, c, last, hi);
    WiderRange(Summaries(f, f[0].instrument, c), lo, first, last, hi, c);
  }

  lemma SortedTwoSteps(s: seq<Bar>, fine: Cycle, coarse: Cycle)
    requires Chronological(s) && s != [] && Finer(fine, coarse) && fine != M1
    requires AggregatedSorted(s, fine) != []
    ensures AggregatedSorted(AggregatedSorted(s, fine), coarse) == Unfinished(AggregatedSorted(s, coarse))
  {
    var f := AggregatedSorted(s, fine);
    var lo, hi := DateOf(s[0].start), DateOf(s[|s|-1].start) + 1;
    FineDates(s, fine);
    FineRange(f, lo, hi, coarse);
    SortedInTwoSteps(s, s[0].instrument, fine, coarse, lo, hi);
  }

  /** Aggregating to a finer cycle first and then on to a coarser one gives the same bars as aggregating
      in one step, except that no bar of the second step is ever marked completed. */
  lemma TwoStepsGiveOneStep(bars: seq<Bar>, fine: Cycle, coarse: Cycle)
    requires Finer(fine, coarse) && fine != M1
    ensures Aggregated(Aggregated(bars, fine), coarse) == Unfinished(Aggregated(bars, coarse))
  {
    if bars != [] {
      var s := SortByStart(bars);
      SortByStartIsStable(bars);
      SortedAsAWhole(s, fine);
      SortedAsAWhole(s, coarse);
      FineDates(s, fine);
      if AggregatedSorted(s, fine) != [] {
        SortedTwoSteps(s, fine, coarse);
        SortByStartOfSorted(AggregatedSorted(s, fine));
      }
    }
  }

  lemma {:induction false} UnfinishedSame(bars: seq<Bar>)
    ensures Unfinished(bars) == bars <==> forall k :: 0 <= k < |bars| ==> !bars[k].completed
  {
    if bars != [] {
      UnfinishedSame(bars[1..]);
      assert Unfinished(bars)[1..] == Unfinished(bars[1..]);
      assert Unfinished(bars) == bars ==> Unfinished(bars)[0] == bars[0];
      assert (forall k :: 0 <= k < |bars| ==> !bars[k].completed)
        <==> !bars[0].completed && (forall k :: 0 <= k < |bars[1..]| ==> !bars[1..][k].completed) by {
        assert forall k :: 0 < k < |bars| ==> bars[1..][k-1] == bars[k];
      }
    }
  }
}
