/** What the completeness flag of an aggregated bar says about the minutes of its bucket, and when aggregating
    in two steps keeps it. */
module BarCompleteness {
  import opened Bars
  import opened BarBuckets
  import opened BarTwoStep

  function MinuteAt(t: int, k: int): int {
    t + k * 60
  }

  /** The bars of the k-th minute from `t` on. */
  function MinuteBars(bars: seq<Bar>, t: int, k: int): seq<Bar> {
    Within(bars, MinuteAt(t, k), MinuteAt(t, k) + 60)
  }

  predicate SomeCompleted(bars: seq<Bar>) {
    exists k :: 0 <= k < |bars| && bars[k].completed
  }

  /** Every one of the `n` minutes from `t` on has a completed bar. */
  ghost predicate AllDone(bars: seq<Bar>, t: int, n: int) {
    forall k :: 0 <= k < n ==> SomeCompleted(MinuteBars(bars, t, k))
  }

  /** None of the `n` minutes from `t` on has two bars. */
  ghost predicate NoRepeat(bars: seq<Bar>, t: int, n: int) {
    forall k :: 0 <= k < n ==> |MinuteBars(bars, t, k)| <= 1
  }

  /** What the code looks at: as many bars as the bucket has minutes, all of them completed. */
  predicate FullBucket(bars: seq<Bar>, bucket: Bucket) {
    var inside := Within(bars, bucket.0, bucket.1);
    |inside| == (bucket.1 - bucket.0) / 60 && AllCompleted(inside)
  }

  // ---------------------------------------------------------------- counting minute by minute

  lemma {:induction false} CompletedConcat(a: seq<Bar>, b: seq<Bar>)
    ensures AllCompleted(a + b) <==> AllCompleted(a) && AllCompleted(b)
  {
    if AllCompleted(a + b) {
      assert forall k :: 0 <= k < |a| ==> (a + b)[k] == a[k];
      assert forall k :: 0 <= k < |b| ==> (a + b)[|a| + k] == b[k];
    }
  }

  lemma {:induction false} LastMinute(s: seq<Bar>, t: int, n: nat)
    requires Chronological(s) && n > 0
    ensures Within(s, t, MinuteAt(t, n)) == Within(s, t, MinuteAt(t, n - 1)) + MinuteBars(s, t, n - 1)
    ensures AllDone(s, t, n) <==> AllDone(s, t, n - 1) && SomeCompleted(MinuteBars(s, t, n - 1))
    ensures NoRepeat(s, t, n) <==> NoRepeat(s, t, n - 1) && |MinuteBars(s, t, n - 1)| <= 1
  {
    WithinSplit(s, t, MinuteAt(t, n - 1), MinuteAt(t, n));
  }

  /** If every minute is done, there are at least as many bars as minutes, and just as many only if no
      minute is repeated. */
  lemma {:induction false} DoneCounts(s: seq<Bar>, t: int, n: nat)
    requires Chronological(s) && AllDone(s, t, n)
    ensures |Within(s, t, MinuteAt(t, n))| >= n
    ensures |Within(s, t, MinuteAt(t, n))| == n ==> NoRepeat(s, t, n)
  {
    if n > 0 {
      LastMinute(s, t, n);
      DoneCounts(s, t, n - 1);
    }
  }

  /** One more minute, holding at most one bar. */
  lemma {:induction false} OneMoreMinute(a: seq<Bar>, b: seq<Bar>, n: nat)
    requires n > 0 && |a| <= n - 1 && |b| <= 1
    ensures |a + b| == n && AllCompleted(a + b) <==> |a| == n - 1 && AllCompleted(a) && SomeCompleted(b)
  {
    CompletedConcat(a, b);
    assert |b| == 1 && AllCompleted(b) ==> b[0].completed;
  }

  /** The minutes of a stretch without repetition hold one completed bar each exactly when every minute is
      done. */
  lemma {:induction false} MinutesDone(s: seq<Bar>, t: int, n: nat)
    requires Chronological(s) && NoRepeat(s, t, n)
    ensures |Within(s, t, MinuteAt(t, n))| <= n
    ensures |Within(s, t, MinuteAt(t, n))| == n && AllCompleted(Within(s, t, MinuteAt(t, n))) <==> AllDone(s, t, n)
  {
    if n == 0 {
      WithinNone(s, t, t);
    } else {
      LastMinute(s, t, n);
      MinutesDone(s, t, n - 1);
      OneMoreMinute(Within(s, t, MinuteAt(t, n - 1)), MinuteBars(s, t, n - 1), n);
    }
  }

  /** Of a bucket that is full or done, the two agree exactly when no minute of it is repeated. */
  lemma {:induction false} BucketExactlyWhen(s: seq<Bar>, bucket: Bucket, n: nat)
    requires Chronological(s) && bucket.1 == MinuteAt(bucket.0, n)
    requires FullBucket(s, bucket) || AllDone(s, bucket.0, n)
    ensures (FullBucket(s, bucket) <==> AllDone(s, bucket.0, n)) <==> NoRepeat(s, bucket.0, n)
  {
    if NoRepeat(s, bucket.0, n) {
      MinutesDone(s, bucket.0, n);
    }
    if AllDone(s, bucket.0, n) {
      DoneCounts(s, bucket.0, n);
    }
  }

  // ---------------------------------------------------------------- the order of the input does not matter

  lemma {:induction false} WithinCount(bars: seq<Bar>, lo: int, hi: int, b: Bar)
    ensures multiset(Within(bars, lo, hi))[b] == if lo <= b.start < hi then multiset(bars)[b] else 0
  {
    if bars != [] {
      WithinCount(bars[1..], lo, hi, b);
      assert bars == [bars[0]] + bars[1..];
    }
  }

  lemma {:induction false} SameWithin(bars: seq<Bar>, s: seq<Bar>, lo: int, hi: int)
    requires multiset(s) == multiset(bars)
    ensures multiset(Within(s, lo, hi)) == multiset(Within(bars, lo, hi))
  {
    forall b ensures multiset(Within(s, lo, hi))[b] == multiset(Within(bars, lo, hi))[b] {
      WithinCount(bars, lo, hi, b);
      WithinCount(s, lo, hi, b);
    }
  }

  lemma {:induction false} SameFlags(a: seq<Bar>, b: seq<Bar>)
    requires multiset(a) == multiset(b)
    ensures |a| == |b| && (AllCompleted(a) ==> AllCompleted(b)) && (SomeCompleted(a) ==> SomeCompleted(b))
  {
    assert |a| == |multiset(a)| && |b| == |multiset(b)|;
    forall k | 0 <= k < |b| ensures b[k] in a {
      assert b[k] in multiset(a);
    }
    forall k | 0 <= k < |a| ensures a[k] in b {
      assert a[k] in multiset(b);
    }
  }

  lemma {:induction false} SameBucket(bars: seq<Bar>, s: seq<Bar>, lo: int, hi: int)
    requires multiset(s) == multiset(bars)
    ensures |Within(s, lo, hi)| == |Within(bars, lo, hi)|
    ensures AllCompleted(Within(s, lo, hi)) <==> AllCompleted(Within(bars, lo, hi))
    ensures SomeCompleted(Within(s, lo, hi)) <==> SomeCompleted(Within(bars, lo, hi))
  {
    SameWithin(bars, s, lo, hi);
    SameFlags(Within(s, lo, hi), Within(bars, lo, hi));
    SameFlags(Within(bars, lo, hi), Within(s, lo, hi));
  }

  lemma {:induction false} SameStretch(bars: seq<Bar>, s: seq<Bar>, t: int, n: int)
    requires multiset(s) == multiset(bars)
    ensures AllDone(s, t, n) <==> AllDone(bars, t, n)
    ensures NoRepeat(s, t, n) <==> NoRepeat(bars, t, n)
  {
    forall k
      ensures SomeCompleted(MinuteBars(s, t, k)) <==> SomeCompleted(MinuteBars(bars, t, k))
      ensures |MinuteBars(s, t, k)| == |MinuteBars(bars, t, k)|
    {
      SameBucket(bars, s, MinuteAt(t, k), MinuteAt(t, k) + 60);
    }
  }

  // ---------------------------------------------------------------- aggregated bars and their buckets

  function BucketOf(r: Bar): Bucket {
    (r.start, r.end)
  }

  lemma {:induction false} InEither<T>(x: T, a: seq<T>, b: seq<T>)
    ensures x in a + b <==> x in a || x in b
  {
  }

  lemma {:induction false} CollectedFrom(s: seq<Bar>, buckets: seq<Bucket>, i: string, c: Cycle, r: Bar)
    requires r in Collect(Summaries(s, i, c), buckets)
    ensures BucketOf(r) in buckets && (r.completed <==> FullBucket(s, BucketOf(r)))
    decreases |buckets|
  {
    InEither(r, SummaryIfAny(s, i, c, buckets[0]), Collect(Summaries(s, i, c), buckets[1..]));
    if r !in SummaryIfAny(s, i, c, buckets[0]) {
      CollectedFrom(s, buckets[1..], i, c, r);
    }
  }

  lemma {:induction false} BucketCollected(s: seq<Bar>, buckets: seq<Bucket>, i: string, c: Cycle, b: Bucket)
    requires b in buckets && Within(s, b.0, b.1) != []
    ensures Summary(Within(s, b.0, b.1), i, c, b) in Collect(Summaries(s, i, c), buckets)
  {
    if buckets[0] != b {
      BucketCollected(s, buckets[1..], i, c, b);
    }
  }

  lemma {:induction false} DayOfBucket(lo: int, hi: int, w: int, b: Bucket) returns (day: int)
    requires w > 0 && b in AllBoundaries(lo, hi, w)
    ensures lo <= day < hi && b in DayBoundaries(day, w)
    decreases hi - lo
  {
    InEither(b, DayBoundaries(lo, w), AllBoundaries(lo + 1, hi, w));
    if b in DayBoundaries(lo, w) {
      day := lo;
    } else {
      day := DayOfBucket(lo + 1, hi, w, b);
    }
  }

  lemma {:induction false} BucketOfDay(lo: int, hi: int, w: int, day: int, b: Bucket)
    requires w > 0 && lo <= day < hi && b in DayBoundaries(day, w)
    ensures b in AllBoundaries(lo, hi, w)
    decreases hi - lo
  {
    InEither(b, DayBoundaries(lo, w), AllBoundaries(lo + 1, hi, w));
    if lo < day {
      BucketOfDay(lo + 1, hi, w, day, b);
    }
  }

  lemma {:induction false} BucketInDay(day: int, c: Cycle, b: Bucket)
    requires b in DayBoundaries(day, CycleSeconds(c))
    ensures DayStart(day) <= b.0 < b.1 <= DayStart(day + 1) && b.1 - b.0 == CycleSeconds(c)
  {
    DayBoundariesOrdered(day, c);
    DayBoundariesFull(day, c);
  }

  lemma {:induction false} WholeMinutes(c: Cycle, t: int)
    ensures CycleSeconds(c) / 60 > 0 && MinuteAt(t, CycleSeconds(c) / 60) == t + CycleSeconds(c)
  {
  }

  lemma {:induction false} SortedFrom(s: seq<Bar>, c: Cycle, r: Bar)
    requires s != [] && r in AggregatedSorted(s, c)
    ensures BucketOf(r) in AllBoundaries(DateOf(s[0].start), DateOf(s[|s|-1].start) + 1, CycleSeconds(c))
    ensures r.completed <==> FullBucket(s, BucketOf(r))
  {
    var bs := AllBoundaries(DateOf(s[0].start), DateOf(s[|s|-1].start) + 1, CycleSeconds(c));
    CollectedFrom(s, bs, s[0].instrument, c, r);
  }

  /** Every aggregated bar is that of a bucket of some day, completed exactly if the bucket is full. */
  lemma {:induction false} CompletedIsFull(bars: seq<Bar>, c: Cycle, r: Bar) returns (day: int)
    requires c != M1 && r in Aggregated(bars, c)
    ensures BucketOf(r) in DayBoundaries(day, CycleSeconds(c))
    ensures r.completed <==> FullBucket(bars, BucketOf(r))
  {
    var s := SortByStart(bars);
    SortByStartIsStable(bars);
    SortedFrom(s, c, r);
    SameBucket(bars, s, r.start, r.end);
    day := DayOfBucket(DateOf(s[0].start), DateOf(s[|s|-1].start) + 1, CycleSeconds(c), BucketOf(r));
  }

  lemma {:induction false} SortedBucket(s: seq<Bar>, c: Cycle, day: int, b: Bucket)
    requires Chronological(s) && b in DayBoundaries(day, CycleSeconds(c)) && Within(s, b.0, b.1) != []
    ensures s != [] && b in AllBoundaries(DateOf(s[0].start), DateOf(s[|s|-1].start) + 1, CycleSeconds(c))
  {
    DayIsTouched(s, c, day, b);
    BucketOfDay(DateOf(s[0].start), DateOf(s[|s|-1].start) + 1, CycleSeconds(c), day, b);
  }

  lemma {:induction false} SortedHasBar(s: seq<Bar>, c: Cycle, b: Bucket)
    requires s != [] && b in AllBoundaries(DateOf(s[0].start), DateOf(s[|s|-1].start) + 1, CycleSeconds(c))
    requires Within(s, b.0, b.1) != []
    ensures Summary(Within(s, b.0, b.1), s[0].instrument, c, b) in AggregatedSorted(s, c)
  {
    var bs := AllBoundaries(DateOf(s[0].start), DateOf(s[|s|-1].start) + 1, CycleSeconds(c));
    BucketCollected(s, bs, s[0].instrument, c, b);
  }

  /** Every bucket in which some bar starts has its aggregated bar. */
  lemma {:induction false} BucketHasBar(bars: seq<Bar>, c: Cycle, day: int, b: Bucket) returns (r: Bar)
    requires c != M1 && b in DayBoundaries(day, CycleSeconds(c)) && Within(bars, b.0, b.1) != []
    ensures r in Aggregated(bars, c) && BucketOf(r) == b
  {
    var s := SortByStart(bars);
    SortByStartIsStable(bars);
    SameBucket(bars, s, b.0, b.1);
    SortedBucket(s, c, day, b);
    SortedHasBar(s, c, b);
    r := Summary(Within(s, b.0, b.1), s[0].instrument, c, b);
  }

  lemma {:induction false} DayIsTouched(s: seq<Bar>, c: Cycle, day: int, b: Bucket)
    requires Chronological(s) && b in DayBoundaries(day, CycleSeconds(c)) && Within(s, b.0, b.1) != []
    ensures s != [] && DateOf(s[0].start) <= day <= DateOf(s[|s|-1].start)
  {
    BucketInDay(day, c, b);
    if forall k :: 0 <= k < |s| ==> !(b.0 <= s[k].start < b.1) {
      WithinNone(s, b.0, b.1);
    }
    var k :| 0 <= k < |s| && b.0 <= s[k].start < b.1;
    assert s[0].start <= s[k].start <= s[|s|-1].start;
  }

  // ---------------------------------------------------------------- what the flag says

  /** How many minutes the bucket of a bar has. */
  function Minutes(r: Bar): int {
    (r.end - r.start) / 60
  }

  /** The flag says that every minute of the bucket has a completed bar. */
  ghost predicate FlagIsRight(bars: seq<Bar>, r: Bar) {
    r.completed <==> AllDone(bars, r.start, Minutes(r))
  }

  lemma {:induction false} AnyOrder(bars: seq<Bar>, bucket: Bucket, n: nat)
    requires bucket.1 == MinuteAt(bucket.0, n)
    requires FullBucket(bars, bucket) || AllDone(bars, bucket.0, n)
    ensures (FullBucket(bars, bucket) <==> AllDone(bars, bucket.0, n)) <==> NoRepeat(bars, bucket.0, n)
  {
    var s := SortByStart(bars);
    SortByStartIsStable(bars);
    SameStretch(bars, s, bucket.0, n);
    SameBucket(bars, s, bucket.0, bucket.1);
    BucketExactlyWhen(s, bucket, n);
  }

  /** For any list of bars, the flag of an aggregated bar is right exactly when no minute of its bucket is
      repeated, or when the bucket neither holds as many bars as minutes, all completed, nor has a
      completed bar in every minute. */
  lemma {:induction false} FlagIsRightExactlyWhen(bars: seq<Bar>, c: Cycle, r: Bar)
    requires c != M1 && r in Aggregated(bars, c)
    ensures FlagIsRight(bars, r) <==>
      || NoRepeat(bars, r.start, Minutes(r))
      || !(FullBucket(bars, BucketOf(r)) || AllDone(bars, r.start, Minutes(r)))
  {
    var day := CompletedIsFull(bars, c, r);
    BucketInDay(day, c, BucketOf(r));
    WholeMinutes(c, r.start);
    if FullBucket(bars, BucketOf(r)) || AllDone(bars, r.start, Minutes(r)) {
      AnyOrder(bars, BucketOf(r), Minutes(r));
    }
  }

  /** No minute of the clock has two bars. */
  ghost predicate OnePerMinute(bars: seq<Bar>) {
    forall t :: t % 60 == 0 ==> |Within(bars, t, t + 60)| <= 1
  }

  lemma {:induction false} BoundariesOnMinutes(t: int, close: int, c: Cycle)
    requires t % 60 == 0
    ensures forall b :: b in Boundaries(t, close, CycleSeconds(c)) ==> b.0 % 60 == 0
    decreases close - t
  {
    if t < close && t + CycleSeconds(c) < close {
      MinuteAligned(t, CycleSeconds(c) / 60);
      WholeMinutes(c, t);
      BoundariesOnMinutes(t + CycleSeconds(c), close, c);
    }
  }

  lemma {:induction false} MinuteAligned(t: int, k: int)
    requires t % 60 == 0
    ensures MinuteAt(t, k) % 60 == 0
  {
    assert t == 60 * (t / 60);
    assert MinuteAt(t, k) == 60 * (t / 60 + k);
  }

  lemma {:induction false} DayBucketOnMinute(day: int, c: Cycle, b: Bucket)
    requires b in DayBoundaries(day, CycleSeconds(c))
    ensures b.0 % 60 == 0
  {
    var base := DayStart(day);
    assert base == MinuteAt(0, 1440 * day);
    MinuteAligned(0, 1440 * day);
    MinuteAligned(base, 570);
    MinuteAligned(base, 780);
    BoundariesOnMinutes(base + MORNING_OPEN, base + MORNING_CLOSE, c);
    BoundariesOnMinutes(base + AFTERNOON_OPEN, base + AFTERNOON_CLOSE, c);
  }

  lemma {:induction false} NoRepeatAnywhere(bars: seq<Bar>, t: int, n: int)
    requires OnePerMinute(bars) && t % 60 == 0
    ensures NoRepeat(bars, t, n)
  {
    forall k | 0 <= k < n ensures |MinuteBars(bars, t, k)| <= 1 {
      MinuteAligned(t, k);
    }
  }

  /** With at most one bar a minute, in any order, an aggregated bar is completed exactly when every minute
      of its bucket has a completed bar. */
  lemma {:induction false} CompletedMeansEveryMinute(bars: seq<Bar>, c: Cycle)
    requires c != M1 && OnePerMinute(bars)
    ensures forall r :: r in Aggregated(bars, c) ==> FlagIsRight(bars, r)
  {
    forall r | r in Aggregated(bars, c) ensures FlagIsRight(bars, r) {
      var day := CompletedIsFull(bars, c, r);
      DayBucketOnMinute(day, c, BucketOf(r));
      NoRepeatAnywhere(bars, r.start, Minutes(r));
      FlagIsRightExactlyWhen(bars, c, r);
    }
  }

  // ---------------------------------------------------------------- aggregating in two steps

  /** No bucket of cycle `c`, on any day, is full. */
  ghost predicate NoFullBucket(bars: seq<Bar>, c: Cycle) {
    forall day, b :: b in DayBoundaries(day, CycleSeconds(c)) ==> !FullBucket(bars, b)
  }

  /** Every bucket of cycle `c`, on any day, has a minute without a completed bar. */
  ghost predicate NoBucketDone(bars: seq<Bar>, c: Cycle) {
    forall day, b :: b in DayBoundaries(day, CycleSeconds(c)) ==> !AllDone(bars, b.0, CycleSeconds(c) / 60)
  }

  lemma {:induction false} NoneCompletedExactlyWhen(bars: seq<Bar>, c: Cycle)
    requires c != M1
    ensures (forall k :: 0 <= k < |Aggregated(bars, c)| ==> !Aggregated(bars, c)[k].completed) <==>
        NoFullBucket(bars, c)
  {
    var all := Aggregated(bars, c);
    if NoFullBucket(bars, c) {
      forall k | 0 <= k < |all| ensures !all[k].completed {
        var day := CompletedIsFull(bars, c, all[k]);
      }
    }
    if forall k :: 0 <= k < |all| ==> !all[k].completed {
      forall day, b | b in DayBoundaries(day, CycleSeconds(c)) ensures !FullBucket(bars, b) {
        if FullBucket(bars, b) {
          BucketInDay(day, c, b);
          WholeMinutes(c, b.0);
          var r := BucketHasBar(bars, c, day, b);
          var day' := CompletedIsFull(bars, c, r);
          assert false;
        }
      }
    }
  }

  /** Aggregating by way of a finer cycle agrees with one step completely exactly when no bucket of the
      coarse cycle holds as many bars as minutes, all completed. */
  lemma {:induction false} TwoStepsAgreeExactlyWhen(bars: seq<Bar>, fine: Cycle, coarse: Cycle)
    requires Finer(fine, coarse) && fine != M1
    ensures Aggregated(Aggregated(bars, fine), coarse) == Aggregated(bars, coarse) <==> NoFullBucket(bars, coarse)
  {
    TwoStepsGiveOneStep(bars, fine, coarse);
    UnfinishedSame(Aggregated(bars, coarse));
    NoneCompletedExactlyWhen(bars, coarse);
  }

  /** With at most one bar a minute that is: exactly when every coarse bucket lacks a completed bar in some
      minute. */
  lemma {:induction false} TwoStepsAgreeOnMinutes(bars: seq<Bar>, fine: Cycle, coarse: Cycle)
    requires Finer(fine, coarse) && fine != M1 && OnePerMinute(bars)
    ensures Aggregated(Aggregated(bars, fine), coarse) == Aggregated(bars, coarse) <==> NoBucketDone(bars, coarse)
  {
    TwoStepsAgreeExactlyWhen(bars, fine, coarse);
    forall day, b | b in DayBoundaries(day, CycleSeconds(coarse))
      ensures FullBucket(bars, b) <==> AllDone(bars, b.0, CycleSeconds(coarse) / 60)
    {
      BucketInDay(day, coarse, b);
      DayBucketOnMinute(day, coarse, b);
      WholeMinutes(coarse, b.0);
      FullIsDone(bars, b, CycleSeconds(coarse) / 60);
    }
  }

  lemma {:induction false} FullIsDone(bars: seq<Bar>, b: Bucket, n: nat)
    requires OnePerMinute(bars) && b.0 % 60 == 0 && b.1 == MinuteAt(b.0, n)
    ensures FullBucket(bars, b) <==> AllDone(bars, b.0, n)
  {
    var s := SortByStart(bars);
    SortByStartIsStable(bars);
    SameBucket(bars, s, b.0, b.1);
    SameStretch(bars, s, b.0, n);
    NoRepeatAnywhere(bars, b.0, n);
    MinutesDone(s, b.0, n);
  }

  // ---------------------------------------------------------------- where the flag is wrong

  function MinuteBar(k: int): Bar {
    var t := MinuteAt(MORNING_OPEN, k);
    Bar("", M1, t, t + 60, 1.0, 1.0, 1.0, 1.0, 1, 1.0, true)
  }

  function MinuteList(ks: seq<int>): seq<Bar> {
    seq(|ks|, k requires 0 <= k < |ks| => MinuteBar(ks[k]))
  }

  lemma {:induction false} FirstBucket(c: Cycle)
    ensures (MORNING_OPEN, MORNING_OPEN + CycleSeconds(c)) in DayBoundaries(0, CycleSeconds(c))
  {
    var bs := Boundaries(MORNING_OPEN, MORNING_CLOSE, CycleSeconds(c));
    assert bs[0] == (MORNING_OPEN, MORNING_OPEN + CycleSeconds(c));
    assert DayBoundaries(0, CycleSeconds(c))[0] == bs[0];
  }

  /** All the minutes of the list lie in the first bucket of the day. */
  lemma {:induction false} AllInFirst(ks: seq<int>, c: Cycle)
    requires forall k :: 0 <= k < |ks| ==> 0 <= ks[k] < CycleSeconds(c) / 60
    ensures Within(MinuteList(ks), MORNING_OPEN, MORNING_OPEN + CycleSeconds(c)) == MinuteList(ks)
    ensures AllCompleted(MinuteList(ks))
  {
    WholeMinutes(c, MORNING_OPEN);
    WithinAll(MinuteList(ks), MORNING_OPEN, MORNING_OPEN + CycleSeconds(c));
  }

  lemma {:induction false} MinuteMissing(ks: seq<int>, m: int)
    requires m !in ks
    ensures MinuteBars(MinuteList(ks), MORNING_OPEN, m) == []
  {
    forall k | 0 <= k < |ks| ensures ks[k] != m {
      assert ks[k] in ks;
    }
    WithinNone(MinuteList(ks), MinuteAt(MORNING_OPEN, m), MinuteAt(MORNING_OPEN, m) + 60);
  }

  lemma {:induction false} MinutePresent(ks: seq<int>, m: int, k: nat)
    requires k < |ks| && ks[k] == m
    ensures SomeCompleted(MinuteBars(MinuteList(ks), MORNING_OPEN, m))
  {
    var t := MinuteAt(MORNING_OPEN, m);
    var bars := MinuteList(ks);
    WithinCount(bars, t, t + 60, bars[k]);
    assert bars[k] in multiset(bars);
    assert bars[k] in multiset(Within(bars, t, t + 60));
    assert bars[k] in Within(bars, t, t + 60);
  }

  lemma {:induction false} MinutesPresent(ks: seq<int>, n: int)
    requires forall m :: 0 <= m < n ==> m in ks
    ensures AllDone(MinuteList(ks), MORNING_OPEN, n)
  {
    forall m | 0 <= m < n ensures SomeCompleted(MinuteBars(MinuteList(ks), MORNING_OPEN, m)) {
      assert m in ks;
      var k :| 0 <= k < |ks| && ks[k] == m;
      MinutePresent(ks, m, k);
    }
  }

  /** Minutes of the first five-minute bucket make one bar, completed exactly if there are five of them. */
  lemma {:induction false} FirstFive(ks: seq<int>) returns (r: Bar)
    requires ks != [] && forall k :: 0 <= k < |ks| ==> 0 <= ks[k] < 5
    ensures r in Aggregated(MinuteList(ks), M5) && r.start == MORNING_OPEN && Minutes(r) == 5
    ensures r.completed <==> |ks| == 5
  {
    var bars := MinuteList(ks);
    AllInFirst(ks, M5);
    FirstBucket(M5);
    r := BucketHasBar(bars, M5, 0, (MORNING_OPEN, MORNING_OPEN + CycleSeconds(M5)));
    var day := CompletedIsFull(bars, M5, r);
  }

  /** A repeated minute can hide a gap: of the minutes 0, 0, 1, 2 and 3 one five-minute bar is made, which
      counts as completed although nothing covers the fifth minute. */
  lemma {:induction false} RepeatedMinuteHidesAGap() returns (r: Bar)
    ensures var bars := MinuteList([0, 0, 1, 2, 3]);
      r in Aggregated(bars, M5) && r.completed && MinuteBars(bars, r.start, 4) == [] && !FlagIsRight(bars, r)
  {
    var ks := [0, 0, 1, 2, 3];
    r := FirstFive(ks);
    MinuteMissing(ks, 4);
    assert !SomeCompleted(MinuteBars(MinuteList(ks), r.start, 4));
  }

  /** It can also spoil a bucket without a gap: of the minutes 0, 0, 1, 2, 3 and 4 one five-minute bar is
      made, which does not count as completed. */
  lemma {:induction false} RepeatedMinuteSpoilsABucket() returns (r: Bar)
    ensures var bars := MinuteList([0, 0, 1, 2, 3, 4]);
      r in Aggregated(bars, M5) && !r.completed && AllDone(bars, r.start, Minutes(r)) && !FlagIsRight(bars, r)
  {
    var ks := [0, 0, 1, 2, 3, 4];
    r := FirstFive(ks);
    assert ks[1] == 0 && ks[2] == 1 && ks[3] == 2 && ks[4] == 3 && ks[5] == 4;
    MinutesPresent(ks, 5);
  }

  /** Fifteen minutes, all there, aggregated by way of five-minute bars: the two routes differ. */
  lemma {:induction false} TwoStepsLoseCompleteness()
    ensures var bars := MinuteList(seq(15, k => k));
      Aggregated(Aggregated(bars, M5), M15) != Aggregated(bars, M15)
  {
    var ks := seq(15, k => k);
    AllInFirst(ks, M15);
    FirstBucket(M15);
    assert FullBucket(MinuteList(ks), (MORNING_OPEN, MORNING_OPEN + CycleSeconds(M15)));
    TwoStepsAgreeExactlyWhen(MinuteList(ks), M5, M15);
  }
}
