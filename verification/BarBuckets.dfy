/** The exchange's sessions cut into buckets, and the bars that summarise a bucket. */
module BarBuckets {
  import opened Arithmetic
  import opened Bars

  const MORNING_OPEN := 34200
  const MORNING_CLOSE := 41400
  const AFTERNOON_OPEN := 46800
  const AFTERNOON_CLOSE := 54000

  type Bucket = (int, int)

  function CycleSeconds(c: Cycle): (w: int)
    ensures w > 0
  {
    match c
    case M1 => 60
    case M5 => 300
    case M15 => 900
    case M30 => 1800
    case M60 => 3600
  }

  /** Morning [09:30, 11:30) or afternoon [13:00, 15:00) of its day. */
  predicate InSession(t: int) {
    var s := t % 86400;
    MORNING_OPEN <= s < MORNING_CLOSE || AFTERNOON_OPEN <= s < AFTERNOON_CLOSE
  }

  /** Consecutive buckets of width `w` from `t` on, the last one cut at `close`. */
  function Boundaries(t: int, close: int, w: int): seq<Bucket>
    requires w > 0
    decreases close - t
  {
    if t >= close then []
    else
      var end := Min(t + w, close);
      [(t, end)] + Boundaries(end, close, w)
  }

  function DayBoundaries(day: int, w: int): seq<Bucket>
    requires w > 0
  {
    var base := DayStart(day);
    Boundaries(base + MORNING_OPEN, base + MORNING_CLOSE, w)
      + Boundaries(base + AFTERNOON_OPEN, base + AFTERNOON_CLOSE, w)
  }

  /** The buckets of the days from `lo` up to, not including, `hi`. */
  function AllBoundaries(lo: int, hi: int, w: int): seq<Bucket>
    requires w > 0
    decreases hi - lo
  {
    if lo >= hi then [] else DayBoundaries(lo, w) + AllBoundaries(lo + 1, hi, w)
  }

  /** The bars starting in [lo, hi), in stream order. */
  function Within(bars: seq<Bar>, lo: int, hi: int): (r: seq<Bar>)
    ensures |r| <= |bars|
  {
    if bars == [] then []
    else if lo <= bars[0].start < hi then [bars[0]] + Within(bars[1..], lo, hi)
    else Within(bars[1..], lo, hi)
  }

  function HighOf(bars: seq<Bar>): real
    requires bars != []
  {
    if |bars| == 1 then bars[0].high
    else
      var rest := HighOf(bars[1..]);
      if bars[0].high >= rest then bars[0].high else rest
  }

  function LowOf(bars: seq<Bar>): real
    requires bars != []
  {
    if |bars| == 1 then bars[0].low
    else
      var rest := LowOf(bars[1..]);
      if bars[0].low <= rest then bars[0].low else rest
  }

  function VolumeOf(bars: seq<Bar>): int {
    if bars == [] then 0 else bars[0].volume + VolumeOf(bars[1..])
  }

  function AmountOf(bars: seq<Bar>): real {
    if bars == [] then 0.0 else bars[0].amount + AmountOf(bars[1..])
  }

  predicate AllCompleted(bars: seq<Bar>) {
    forall k :: 0 <= k < |bars| ==> bars[k].completed
  }

  /** The bar that summarises the bars of one bucket. */
  function Summary(bars: seq<Bar>, instrument: string, c: Cycle, bucket: Bucket): Bar
    requires bars != []
  {
    Bar(instrument, c, bucket.0, bucket.1,
        bars[0].open, HighOf(bars), LowOf(bars), bars[|bars|-1].close, VolumeOf(bars), AmountOf(bars),
        |bars| == (bucket.1 - bucket.0) / 60 && AllCompleted(bars))
  }

  /** The summary of one bucket, if some bar starts in it. */
  function SummaryIfAny(bars: seq<Bar>, instrument: string, c: Cycle, bucket: Bucket): (r: seq<Bar>)
    ensures |r| <= 1
  {
    var inside := Within(bars, bucket.0, bucket.1);
    if inside == [] then [] else [Summary(inside, instrument, c, bucket)]
  }

  /** What is to be taken from a bucket. */
  type Collector = Bucket -> seq<Bar>

  /** What `f` takes from each bucket, bucket after bucket. */
  function Collect(f: Collector, buckets: seq<Bucket>): seq<Bar>
    decreases |buckets|
  {
    if buckets == [] then [] else f(buckets[0]) + Collect(f, buckets[1..])
  }

  /** The bars themselves. */
  function Members(bars: seq<Bar>): Collector {
    (b: Bucket) => Within(bars, b.0, b.1)
  }

  /** Their summary. */
  function Summaries(bars: seq<Bar>, instrument: string, c: Cycle): Collector {
    (b: Bucket) => SummaryIfAny(bars, instrument, c, b)
  }

  /** The summaries of every bucket of the days from the first bar's to the last bar's. */
  function AggregatedSorted(s: seq<Bar>, c: Cycle): seq<Bar>
    requires s != []
  {
    Collect(Summaries(s, s[0].instrument, c),
      AllBoundaries(DateOf(s[0].start), DateOf(s[|s|-1].start) + 1, CycleSeconds(c)))
  }

  /** What aggregating a list of bars to cycle `c` yields. */
  function Aggregated(bars: seq<Bar>, c: Cycle): seq<Bar> {
    if c == M1 then bars else if bars == [] then [] else AggregatedSorted(SortByStart(bars), c)
  }

  // ---------------------------------------------------------------- filtering by start time

  lemma Assoc<T>(a: seq<T>, b: seq<T>, c: seq<T>)
    ensures (a + b) + c == a + (b + c)
  {
  }

  lemma {:induction false} CollectConcat(f: Collector, a: seq<Bucket>, b: seq<Bucket>)
    ensures Collect(f, a + b) == Collect(f, a) + Collect(f, b)
  {
    if a == [] {
      assert a + b == b;
    } else {
      var ab := a + b;
      CollectConcat(f, a[1..], b);
      assert ab[0] == a[0] && ab[1..] == a[1..] + b;
      Assoc(f(a[0]), Collect(f, a[1..]), Collect(f, b));
    }
  }

  lemma CollectOne(f: Collector, b: Bucket)
    ensures Collect(f, [b]) == f(b)
  {
    assert [b][1..] == [];
  }

  lemma {:induction false} CollectSame(f: Collector, g: Collector, buckets: seq<Bucket>)
    requires forall b :: b in buckets ==> f(b) == g(b)
    ensures Collect(f, buckets) == Collect(g, buckets)
  {
    if buckets != [] {
      CollectSame(f, g, buckets[1..]);
    }
  }

  lemma {:induction false} CollectNothing(f: Collector, buckets: seq<Bucket>)
    requires forall b :: b in buckets ==> f(b) == []
    ensures Collect(f, buckets) == []
  {
    if buckets != [] {
      CollectNothing(f, buckets[1..]);
    }
  }

  lemma {:induction false} CollectAtMostOneEach(f: Collector, buckets: seq<Bucket>)
    requires forall b :: b in buckets ==> |f(b)| <= 1
    ensures |Collect(f, buckets)| <= |buckets|
  {
    if buckets != [] {
      CollectAtMostOneEach(f, buckets[1..]);
    }
  }

  lemma {:induction false} WithinConcat(a: seq<Bar>, b: seq<Bar>, lo: int, hi: int)
    ensures Within(a + b, lo, hi) == Within(a, lo, hi) + Within(b, lo, hi)
  {
    if a == [] {
      assert a + b == b;
    } else {
      var ab := a + b;
      WithinConcat(a[1..], b, lo, hi);
      assert ab[0] == a[0] && ab[1..] == a[1..] + b;
      Assoc([a[0]], Within(a[1..], lo, hi), Within(b, lo, hi));
    }
  }

  lemma {:induction false} WithinAll(bars: seq<Bar>, lo: int, hi: int)
    requires forall k :: 0 <= k < |bars| ==> lo <= bars[k].start < hi
    ensures Within(bars, lo, hi) == bars
  {
    if bars != [] {
      WithinAll(bars[1..], lo, hi);
    }
  }

  lemma {:induction false} WithinNone(bars: seq<Bar>, lo: int, hi: int)
    requires forall k :: 0 <= k < |bars| ==> !(lo <= bars[k].start < hi)
    ensures Within(bars, lo, hi) == []
  {
    if bars != [] {
      WithinNone(bars[1..], lo, hi);
    }
  }

  lemma {:induction false} WithinStarts(bars: seq<Bar>, lo: int, hi: int)
    ensures forall k :: 0 <= k < |Within(bars, lo, hi)| ==> lo <= Within(bars, lo, hi)[k].start < hi
  {
    if bars != [] {
      WithinStarts(bars[1..], lo, hi);
    }
  }

  /** Looking for a bucket's bars among one day's bars finds all of them. */
  lemma {:induction false} WithinWithin(bars: seq<Bar>, lo: int, hi: int, a: int, b: int)
    requires lo <= a && b <= hi
    ensures Within(Within(bars, lo, hi), a, b) == Within(bars, a, b)
  {
    if bars != [] {
      WithinWithin(bars[1..], lo, hi, a, b);
      var rest := Within(bars[1..], lo, hi);
      assert ([bars[0]] + rest)[1..] == rest;
    }
  }

  /** In a chronological stream, the bars of adjacent intervals follow one another. */
  lemma {:induction false} WithinSplit(bars: seq<Bar>, a: int, b: int, c: int)
    requires Chronological(bars) && a <= b <= c
    ensures Within(bars, a, c) == Within(bars, a, b) + Within(bars, b, c)
  {
    if bars != [] {
      var rest := bars[1..];
      WithinSplit(rest, a, b, c);
      if a <= bars[0].start < b {
        Assoc([bars[0]], Within(rest, a, b), Within(rest, b, c));
      } else if b <= bars[0].start {
        WithinNone(rest, a, b);
        assert Within(rest, a, c) == Within(rest, b, c);
        assert Within(bars, a, b) == [];
        assert Within(bars, a, c) == Within(bars, b, c);
      }
    }
  }

  // ---------------------------------------------------------------- tiling

  /** `n` seconds are a whole number of cycles. */
  predicate WholeCycles(n: int, c: Cycle) {
    match c
    case M1 => n % 60 == 0
    case M5 => n % 300 == 0
    case M15 => n % 900 == 0
    case M30 => n % 1800 == 0
    case M60 => n % 3600 == 0
  }

  lemma AlignedStep(n: int, c: Cycle)
    requires n > 0 && WholeCycles(n, c)
    ensures n >= CycleSeconds(c) && WholeCycles(n - CycleSeconds(c), c)
  {
    OneLess(n, CycleSeconds(c));
  }

  ghost predicate FullWidth(bs: seq<Bucket>, w: int) {
    forall k :: 0 <= k < |bs| ==> bs[k].1 - bs[k].0 == w
  }

  /** How long the buckets last together. */
  function Duration(bs: seq<Bucket>): int {
    if bs == [] then 0 else bs[0].1 - bs[0].0 + Duration(bs[1..])
  }

  lemma {:induction false} DurationConcat(a: seq<Bucket>, b: seq<Bucket>)
    ensures Duration(a + b) == Duration(a) + Duration(b)
  {
    if a == [] {
      assert a + b == b;
    } else {
      DurationConcat(a[1..], b);
      assert (a + b)[1..] == a[1..] + b;
    }
  }

  /** An interval that is a whole number of widths has no shorter last bucket. */
  lemma {:induction false} BoundariesFull(t: int, close: int, c: Cycle)
    requires t <= close && WholeCycles(close - t, c)
    ensures var bs := Boundaries(t, close, CycleSeconds(c));
      FullWidth(bs, CycleSeconds(c)) && Duration(bs) == close - t
    decreases close - t
  {
    if t < close {
      var w := CycleSeconds(c);
      AlignedStep(close - t, c);
      BoundariesFull(t + w, close, c);
      assert Boundaries(t, close, w) == [(t, t + w)] + Boundaries(t + w, close, w);
    }
  }

  predicate Holds(b: Bucket, t: int) {
    b.0 <= t < b.1
  }

  ghost predicate SomeHolds(bs: seq<Bucket>, t: int) {
    exists k :: 0 <= k < |bs| && Holds(bs[k], t)
  }

  /** The buckets in order, none empty and none overlapping the next. */
  ghost predicate Ordered(bs: seq<Bucket>) {
    && (forall k :: 0 <= k < |bs| ==> bs[k].0 < bs[k].1)
    && (forall j, k :: 0 <= j < k < |bs| ==> bs[j].1 <= bs[k].0)
  }

  ghost predicate Inside(bs: seq<Bucket>, lo: int, hi: int) {
    forall k :: 0 <= k < |bs| ==> lo <= bs[k].0 && bs[k].1 <= hi
  }

  lemma {:induction false} BoundariesTile(t: int, close: int, w: int, at: int)
    requires w > 0
    ensures Ordered(Boundaries(t, close, w)) && Inside(Boundaries(t, close, w), t, close)
    ensures t <= at < close <==> SomeHolds(Boundaries(t, close, w), at)
    decreases close - t
  {
    if t < close {
      var end := Min(t + w, close);
      BoundariesTile(end, close, w, at);
      var bs, rest := Boundaries(t, close, w), Boundaries(end, close, w);
      assert forall k :: 0 < k < |bs| ==> bs[k] == rest[k-1];
      if end <= at < close {
        var k :| 0 <= k < |rest| && Holds(rest[k], at);
        assert Holds(bs[k+1], at);
      } else if t <= at < end {
        assert Holds(bs[0], at);
      }
    }
  }

  lemma HoldsAtMostOnce(bs: seq<Bucket>, at: int, j: nat, k: nat)
    requires Ordered(bs) && j < |bs| && k < |bs| && Holds(bs[j], at) && Holds(bs[k], at)
    ensures j == k
  {
  }

  lemma DayCovers(day: int, w: int, at: int)
    requires w > 0
    ensures InSession(at) && DateOf(at) == day <==> SomeHolds(DayBoundaries(day, w), at)
  {
    var base := DayStart(day);
    var morning := Boundaries(base + MORNING_OPEN, base + MORNING_CLOSE, w);
    var afternoon := Boundaries(base + AFTERNOON_OPEN, base + AFTERNOON_CLOSE, w);
    assert SomeHolds(morning, at) <==> base + MORNING_OPEN <= at < base + MORNING_CLOSE by {
      BoundariesTile(base + MORNING_OPEN, base + MORNING_CLOSE, w, at);
    }
    assert SomeHolds(afternoon, at) <==> base + AFTERNOON_OPEN <= at < base + AFTERNOON_CLOSE by {
      BoundariesTile(base + AFTERNOON_OPEN, base + AFTERNOON_CLOSE, w, at);
    }
    SessionOfDay(day, at);
    HoldsEither(morning, afternoon, at);
  }

  /** For every cycle the buckets of a day cover exactly its two sessions, and each second once. */
  lemma DayBoundariesTile(day: int, c: Cycle, at: int)
    ensures var bs := DayBoundaries(day, CycleSeconds(c));
      && Ordered(bs)
      && (InSession(at) && DateOf(at) == day <==> SomeHolds(bs, at))
      && (forall j, k :: 0 <= j < |bs| && 0 <= k < |bs| && Holds(bs[j], at) && Holds(bs[k], at) ==> j == k)
  {
    var bs := DayBoundaries(day, CycleSeconds(c));
    DayCovers(day, CycleSeconds(c), at);
    DayBoundariesOrdered(day, c);
    forall j, k | 0 <= j < |bs| && 0 <= k < |bs| && Holds(bs[j], at) && Holds(bs[k], at) ensures j == k {
      HoldsAtMostOnce(bs, at, j, k);
    }
  }

  lemma HoldsEither(a: seq<Bucket>, b: seq<Bucket>, at: int)
    ensures SomeHolds(a + b, at) <==> SomeHolds(a, at) || SomeHolds(b, at)
  {
    if k :| 0 <= k < |a| && Holds(a[k], at) {
      assert Holds((a + b)[k], at);
    }
    if k :| 0 <= k < |b| && Holds(b[k], at) {
      assert Holds((a + b)[|a| + k], at);
    }
  }

  /** All buckets of a day have the full width of the cycle, and together they last its 240 minutes. */
  lemma DayBoundariesFull(day: int, c: Cycle)
    ensures var bs := DayBoundaries(day, CycleSeconds(c));
      FullWidth(bs, CycleSeconds(c)) && Duration(bs) == 240 * 60
  {
    var base, w := DayStart(day), CycleSeconds(c);
    BoundariesFull(base + MORNING_OPEN, base + MORNING_CLOSE, c);
    BoundariesFull(base + AFTERNOON_OPEN, base + AFTERNOON_CLOSE, c);
    DurationConcat(Boundaries(base + MORNING_OPEN, base + MORNING_CLOSE, w),
      Boundaries(base + AFTERNOON_OPEN, base + AFTERNOON_CLOSE, w));
  }

  lemma SessionOfDay(day: int, at: int)
    ensures var base := DayStart(day);
      && (DateOf(at) == day <==> base <= at < DayStart(day + 1))
      && (InSession(at) && DateOf(at) == day
        <==> base + MORNING_OPEN <= at < base + MORNING_CLOSE || base + AFTERNOON_OPEN <= at < base + AFTERNOON_CLOSE)
  {
  }

  lemma {:induction false} AllBoundariesOrdered(lo: int, hi: int, c: Cycle)
    ensures Ordered(AllBoundaries(lo, hi, CycleSeconds(c)))
    ensures Inside(AllBoundaries(lo, hi, CycleSeconds(c)), DayStart(lo), DayStart(hi))
    decreases hi - lo
  {
    if lo < hi {
      AllBoundariesOrdered(lo + 1, hi, c);
      DayBoundariesOrdered(lo, c);
    }
  }

  lemma DayBoundariesOrdered(day: int, c: Cycle)
    ensures var bs := DayBoundaries(day, CycleSeconds(c));
      Ordered(bs) && Inside(bs, DayStart(day), DayStart(day + 1))
  {
    var base, w := DayStart(day), CycleSeconds(c);
    BoundariesTile(base + MORNING_OPEN, base + MORNING_CLOSE, w, 0);
    BoundariesTile(base + AFTERNOON_OPEN, base + AFTERNOON_CLOSE, w, 0);
  }

  // ---------------------------------------------------------------- hours, widths and summaries

  /** The sessions are from 9:30 to 11:30 and from 13:00 to 15:00. */
  lemma SessionHours(day: int, hour: int, minute: int, second: int)
    requires 0 <= hour < 24 && 0 <= minute < 60 && 0 <= second < 60
    ensures InSession(DayStart(day) + 3600 * hour + 60 * minute + second) <==>
      (hour == 9 && minute >= 30) || hour == 10 || (hour == 11 && minute < 30) || hour == 13 || hour == 14
  {
    var s := 3600 * hour + 60 * minute + second;
    assert 0 <= s < 86400;
    assert (DayStart(day) + s) % 86400 == s;
  }

  lemma {:induction false} FullDuration(bs: seq<Bucket>, w: int)
    requires FullWidth(bs, w)
    ensures Duration(bs) == |bs| * w
  {
    if bs != [] {
      FullDuration(bs[1..], w);
    }
  }

  /** A day has 240 buckets of one minute, 48 of five, 16 of fifteen, 8 of thirty and 4 of sixty. */
  lemma BucketsADay(day: int, c: Cycle)
    ensures |DayBoundaries(day, CycleSeconds(c))| ==
      match c
      case M1 => 240
      case M5 => 48
      case M15 => 16
      case M30 => 8
      case M60 => 4
  {
    DayBoundariesFull(day, c);
    FullDuration(DayBoundaries(day, CycleSeconds(c)), CycleSeconds(c));
  }

  lemma {:induction false} HighIsHighest(bars: seq<Bar>)
    requires bars != []
    ensures forall k :: 0 <= k < |bars| ==> bars[k].high <= HighOf(bars) && bars[k].low >= LowOf(bars)
    ensures exists k :: 0 <= k < |bars| && bars[k].high == HighOf(bars)
    ensures exists k :: 0 <= k < |bars| && bars[k].low == LowOf(bars)
  {
    assert bars[0].high == bars[0].high && bars[0].low == bars[0].low;
    if |bars| > 1 {
      var rest := bars[1..];
      HighIsHighest(rest);
      forall k | 0 <= k < |bars| ensures bars[k].high <= HighOf(bars) && bars[k].low >= LowOf(bars) {
        assert k > 0 ==> bars[k] == rest[k-1];
      }
      var h :| 0 <= h < |rest| && rest[h].high == HighOf(rest);
      assert bars[h+1].high == HighOf(rest);
      var l :| 0 <= l < |rest| && rest[l].low == LowOf(rest);
      assert bars[l+1].low == LowOf(rest);
    }
  }

  lemma TotalsOfOne(b: Bar)
    ensures VolumeOf([b]) == b.volume && AmountOf([b]) == b.amount
  {
    assert [b][1..] == [];
  }

  /** The bar of a bucket: the first open, the last close, the highest high and the lowest low that occur; it counts as
      completed exactly if it has one bar for every minute, all of them completed. */
  lemma SummaryMeans(bars: seq<Bar>, instrument: string, c: Cycle, bucket: Bucket)
    requires bars != [] && (bucket.1 - bucket.0) % 60 == 0
    ensures var b := Summary(bars, instrument, c, bucket);
      && b.instrument == instrument && b.cycle == c && (b.start, b.end) == bucket
      && b.open == bars[0].open && b.close == bars[|bars|-1].close
      && (forall k :: 0 <= k < |bars| ==> b.low <= bars[k].low && bars[k].high <= b.high)
      && (exists k :: 0 <= k < |bars| && bars[k].high == b.high)
      && (exists k :: 0 <= k < |bars| && bars[k].low == b.low)
      && (b.completed <==> 60 * |bars| == bucket.1 - bucket.0 && forall k :: 0 <= k < |bars| ==> bars[k].completed)
  {
    HighIsHighest(bars);
  }
}
