/** The bar builder: session boundaries by stepping through the sessions, bars by grouping on the date. */
module BarBuilder {
  import opened Arithmetic
  import opened Bars
  import opened BarBuckets
  import opened BarTwoStep

  method SessionSlots(open: int, minutes: nat) returns (slots: seq<Bucket>)
    ensures slots == Boundaries(open, open + minutes * 60, 60) && |slots| == minutes
  {
    slots := [];
    ghost var all := Boundaries(open, open + minutes * 60, 60);
    for k := 0 to minutes
      invariant |slots| == k && slots + Boundaries(open + k * 60, open + minutes * 60, 60) == all
    {
      var start := open + k * 60;
      Assoc(slots, [(start, start + 60)], Boundaries(start + 60, open + minutes * 60, 60));
      slots := slots + [(start, start + 60)];
    }
    assert slots + [] == slots;
  }

  /** The 240 one-minute slots of a day are its M1 buckets. */
  method GenerateOneMinuteSlots(day: int) returns (slots: seq<Bucket>)
    ensures slots == DayBoundaries(day, CycleSeconds(M1))
    ensures |slots| == 240
  {
    var base := DayStart(day);
    var morning := SessionSlots(base + MORNING_OPEN, 120);
    var afternoon := SessionSlots(base + AFTERNOON_OPEN, 120);
    slots := morning + afternoon;
  }

  method SessionBoundaries(open: int, close: int, w: int) returns (boundaries: seq<Bucket>)
    requires w > 0
    ensures boundaries == Boundaries(open, close, w)
  {
    boundaries := [];
    var t := open;
    while t < close
      invariant boundaries + Boundaries(t, close, w) == Boundaries(open, close, w)
      decreases close - t
    {
      var end := Min(t + w, close);
      Assoc(boundaries, [(t, end)], Boundaries(end, close, w));
      boundaries := boundaries + [(t, end)];
      t := end;
    }
    assert boundaries + [] == boundaries;
  }

  method GenerateCycleBoundaries(day: int, c: Cycle) returns (boundaries: seq<Bucket>)
    ensures boundaries == DayBoundaries(day, CycleSeconds(c))
  {
    var base := DayStart(day);
    var morning := SessionBoundaries(base + MORNING_OPEN, base + MORNING_CLOSE, CycleSeconds(c));
    var afternoon := SessionBoundaries(base + AFTERNOON_OPEN, base + AFTERNOON_CLOSE, CycleSeconds(c));
    boundaries := morning + afternoon;
  }

  // ---------------------------------------------------------------- grouping by date

  function OnDay(bars: seq<Bar>, day: int): seq<Bar> {
    Within(bars, DayStart(day), DayStart(day + 1))
  }

  ghost predicate Ascending(days: seq<int>) {
    forall j, k :: 0 <= j < k < |days| ==> days[j] < days[k]
  }

  ghost predicate HasDay(bars: seq<Bar>, day: int) {
    exists k :: 0 <= k < |bars| && DateOf(bars[k].start) == day
  }

  ghost predicate DaysOf(bars: seq<Bar>, days: seq<int>) {
    && (forall k :: 0 <= k < |bars| ==> DateOf(bars[k].start) in days)
    && (forall d {:trigger HasDay(bars, d)} :: d in days ==> HasDay(bars, d))
  }

  lemma OnDayOne(b: Bar, day: int)
    ensures OnDay([b], day) == if DateOf(b.start) == day then [b] else []
  {
    assert [b][1..] == [];
  }

  lemma OnDayExtend(bars: seq<Bar>, b: Bar, day: int)
    ensures OnDay(bars + [b], day) == if DateOf(b.start) == day then OnDay(bars, day) + [b] else OnDay(bars, day)
  {
    WithinConcat(bars, [b], DayStart(day), DayStart(day + 1));
    OnDayOne(b, day);
    assert OnDay(bars, day) + [] == OnDay(bars, day);
  }

  lemma OnDayEmpty(bars: seq<Bar>, day: int)
    requires forall k :: 0 <= k < |bars| ==> DateOf(bars[k].start) != day
    ensures OnDay(bars, day) == []
  {
    WithinNone(bars, DayStart(day), DayStart(day + 1));
  }

  ghost predicate Grouped(bars: seq<Bar>, days: seq<int>, byDate: map<int, seq<Bar>>) {
    && Ascending(days) && DaysOf(bars, days)
    && (forall d :: d in byDate <==> d in days)
    && (forall d :: d in byDate ==> byDate[d] == OnDay(bars, d))
  }

  /** In a chronological stream a day seen for the first time is later than all days so far. */
  lemma NewDayIsLast(bars: seq<Bar>, b: Bar, days: seq<int>)
    requires Chronological(bars + [b]) && DaysOf(bars, days) && DateOf(b.start) !in days
    ensures forall d :: d in days ==> d < DateOf(b.start)
    ensures OnDay(bars, DateOf(b.start)) == []
  {
    forall d | d in days ensures d < DateOf(b.start) {
      assert HasDay(bars, d);
      var k :| 0 <= k < |bars| && DateOf(bars[k].start) == d;
      assert (bars + [b])[k].start <= (bars + [b])[|bars|].start;
    }
    OnDayEmpty(bars, DateOf(b.start));
  }

  lemma DaysOfExtend(bars: seq<Bar>, b: Bar, days: seq<int>)
    requires Chronological(bars + [b]) && Ascending(days) && DaysOf(bars, days)
    ensures var days' := if DateOf(b.start) in days then days else days + [DateOf(b.start)];
      Ascending(days') && DaysOf(bars + [b], days')
  {
    var day := DateOf(b.start);
    var days' := if day in days then days else days + [day];
    if day !in days {
      NewDayIsLast(bars, b, days);
      assert days'[|days|] == day;
      assert forall k :: 0 <= k < |days| ==> days'[k] == days[k] && days[k] in days;
    }
    forall d | d in days' ensures HasDay(bars + [b], d) {
      if d in days {
        assert HasDay(bars, d);
        var k :| 0 <= k < |bars| && DateOf(bars[k].start) == d;
        assert (bars + [b])[k] == bars[k];
      } else {
        assert (bars + [b])[|bars|] == b;
      }
    }
    forall k | 0 <= k < |bars + [b]| ensures DateOf((bars + [b])[k].start) in days' {
      if k < |bars| {
        assert DateOf(bars[k].start) in days;
      }
    }
  }

  /** Appends `bar` to the group of its day, starting the group if there is none. */
  function AddToGroup(byDate: map<int, seq<Bar>>, bar: Bar): map<int, seq<Bar>> {
    var day := DateOf(bar.start);
    byDate[day := (if day in byDate then byDate[day] else []) + [bar]]
  }

  lemma GroupedExtend(bars: seq<Bar>, b: Bar, days: seq<int>, byDate: map<int, seq<Bar>>)
    requires Chronological(bars + [b]) && Grouped(bars, days, byDate)
    ensures var days' := if DateOf(b.start) in byDate then days else days + [DateOf(b.start)];
      Grouped(bars + [b], days', AddToGroup(byDate, b))
  {
    var byDate' := AddToGroup(byDate, b);
    DaysOfExtend(bars, b, days);
    forall d | d in byDate' ensures byDate'[d] == OnDay(bars + [b], d) {
      OnDayExtend(bars, b, d);
      if d !in byDate {
        NewDayIsLast(bars, b, days);
      }
    }
  }

  /** The bars of each day, the days in the order they first appear. */
  method GroupByDate(s: seq<Bar>) returns (days: seq<int>, byDate: map<int, seq<Bar>>)
    requires Chronological(s)
    ensures Grouped(s, days, byDate)
  {
    days, byDate := [], map[];
    for n := 0 to |s|
      invariant Grouped(s[..n], days, byDate)
    {
      assert s[..n+1] == s[..n] + [s[n]];
      GroupedExtend(s[..n], s[n], days, byDate);
      if DateOf(s[n].start) !in byDate {
        days := days + [DateOf(s[n].start)];
      }
      byDate := AddToGroup(byDate, s[n]);
    }
    assert s[..|s|] == s;
  }

  // ---------------------------------------------------------------- aggregation

  /** The bars of one day's buckets. */
  method AggregateDay(dateBars: seq<Bar>, boundaries: seq<Bucket>, instrument: string, c: Cycle)
        returns (result: seq<Bar>)
    ensures result == Collect(Summaries(dateBars, instrument, c), boundaries)
  {
    result := [];
    ghost var f := Summaries(dateBars, instrument, c);
    for n := 0 to |boundaries|
      invariant result == Collect(f, boundaries[..n])
    {
      var (start, end) := boundaries[n];
      var constituent := Within(dateBars, start, end);
      assert boundaries[..n+1] == boundaries[..n] + [boundaries[n]];
      CollectConcat(f, boundaries[..n], [boundaries[n]]);
      CollectOne(f, boundaries[n]);
      if constituent != [] {
        result := result + [Summary(constituent, instrument, c, (start, end))];
      }
    }
    assert boundaries[..|boundaries|] == boundaries;
  }

  /** What `f` takes from the buckets of a day. */
  ghost function PerDay(f: Collector, c: Cycle): int -> seq<Bar> {
    day => Collect(f, DayBoundaries(day, CycleSeconds(c)))
  }

  /** What is taken on the first `n` of the days. */
  ghost function OnDays(perDay: int -> seq<Bar>, days: seq<int>, n: nat): seq<Bar>
    requires n <= |days|
  {
    if n == 0 then [] else OnDays(perDay, days, n - 1) + perDay(days[n-1])
  }

  /** One day's buckets see only that day's bars. */
  lemma DayBarsSuffice(s: seq<Bar>, day: int, instrument: string, c: Cycle)
    ensures Collect(Summaries(OnDay(s, day), instrument, c), DayBoundaries(day, CycleSeconds(c)))
         == Collect(Summaries(s, instrument, c), DayBoundaries(day, CycleSeconds(c)))
  {
    var bs := DayBoundaries(day, CycleSeconds(c));
    DayBoundariesOrdered(day, c);
    forall b | b in bs ensures Summaries(OnDay(s, day), instrument, c)(b) == Summaries(s, instrument, c)(b) {
      WithinWithin(s, DayStart(day), DayStart(day + 1), b.0, b.1);
    }
    CollectSame(Summaries(OnDay(s, day), instrument, c), Summaries(s, instrument, c), bs);
  }

  method AggregateDays(ghost s: seq<Bar>, days: seq<int>, byDate: map<int, seq<Bar>>, instrument: string, target: Cycle)
    returns (result: seq<Bar>)
    requires forall k :: 0 <= k < |days| ==> days[k] in byDate && byDate[days[k]] == OnDay(s, days[k])
    ensures result == OnDays(PerDay(Summaries(s, instrument, target), target), days, |days|)
  {
    result := [];
    for n := 0 to |days|
      invariant result == OnDays(PerDay(Summaries(s, instrument, target), target), days, n)
    {
      var boundaries := GenerateCycleBoundaries(days[n], target);
      var bars := AggregateDay(byDate[days[n]], boundaries, instrument, target);
      DayBarsSuffice(s, days[n], instrument, target);
      result := result + bars;
    }
  }

  /** Aggregates one-minute bars to the target cycle. */
  method Aggregate(bars1m: seq<Bar>, target: Cycle) returns (result: seq<Bar>)
    ensures result == Aggregated(bars1m, target)
  {
    if target == M1 {
      return bars1m;
    }
    if bars1m == [] {
      return [];
    }
    var s := SortByStart(bars1m);
    SortByStartIsStable(bars1m);
    var days, byDate := GroupByDate(s);
    result := AggregateDays(s, days, byDate, s[0].instrument, target);
    OnlyDaysWithBars(s, days, target);
  }

  // ---------------------------------------------------------------- only days with bars matter

  /** The first day not yet dealt with after the first `n` of the days. */
  ghost function DayAfter(lo: int, days: seq<int>, n: nat): int
    requires n <= |days|
  {
    if n == 0 then lo else days[n-1] + 1
  }

  /** `f` finds nothing between the n-th of the days and the day before it. */
  ghost predicate GapIsSilent(f: Collector, lo: int, days: seq<int>, n: nat)
    requires n < |days|
  {
    lo <= DayAfter(lo, days, n) <= days[n] && Silent(f, DayAfter(lo, days, n), days[n])
  }

  /** The days from `lo` on, none skipped in which `f` finds something. */
  ghost predicate NoneSkipped(f: Collector, lo: int, days: seq<int>) {
    forall n {:trigger GapIsSilent(f, lo, days, n)} :: 0 <= n < |days| ==> GapIsSilent(f, lo, days, n)
  }

  lemma SkipDays(f: Collector, lo: int, done: int, day: int, c: Cycle)
    requires lo <= done <= day && Silent(f, done, day)
    ensures Collect(f, AllBoundaries(lo, day, CycleSeconds(c))) == Collect(f, AllBoundaries(lo, done, CycleSeconds(c)))
  {
    var there, after := AllBoundaries(lo, done, CycleSeconds(c)), AllBoundaries(done, day, CycleSeconds(c));
    AllBoundariesJoin(lo, done, day, CycleSeconds(c));
    CollectConcat(f, there, after);
    SilentDays(f, done, day, c);
  }

  lemma OneDay(day: int, w: int)
    requires w > 0
    ensures AllBoundaries(day, day + 1, w) == DayBoundaries(day, w)
  {
    assert AllBoundaries(day + 1, day + 1, w) == [];
    assert DayBoundaries(day, w) + [] == DayBoundaries(day, w);
  }

  lemma AddDay(f: Collector, lo: int, day: int, w: int)
    requires w > 0 && lo <= day
    ensures Collect(f, AllBoundaries(lo, day + 1, w))
        == Collect(f, AllBoundaries(lo, day, w)) + Collect(f, DayBoundaries(day, w))
  {
    AllBoundariesJoin(lo, day, day + 1, w);
    OneDay(day, w);
    CollectConcat(f, AllBoundaries(lo, day, w), DayBoundaries(day, w));
  }

  /** After the days before `done`, the next day on which `f` finds something is `day`. */
  lemma NextDay(f: Collector, lo: int, done: int, day: int, c: Cycle)
    requires lo <= done <= day && Silent(f, done, day)
    ensures Collect(f, AllBoundaries(lo, day + 1, CycleSeconds(c)))
         == Collect(f, AllBoundaries(lo, done, CycleSeconds(c))) + Collect(f, DayBoundaries(day, CycleSeconds(c)))
  {
    SkipDays(f, lo, done, day, c);
    AddDay(f, lo, day, CycleSeconds(c));
  }

  /** What `f` takes from the days from `lo` up to a day. */
  ghost function UpTo(f: Collector, lo: int, c: Cycle): int -> seq<Bar> {
    day => Collect(f, AllBoundaries(lo, day, CycleSeconds(c)))
  }

  ghost predicate Advances(upTo: int -> seq<Bar>, perDay: int -> seq<Bar>, lo: int, days: seq<int>, n: nat)
    requires n < |days|
  {
    upTo(DayAfter(lo, days, n + 1)) == upTo(DayAfter(lo, days, n)) + perDay(days[n])
  }

  lemma {:induction false} OnDaysIsUpTo(upTo: int -> seq<Bar>, perDay: int -> seq<Bar>, lo: int, days: seq<int>, n: nat)
    requires n <= |days| && upTo(lo) == [] && forall k :: 0 <= k < |days| ==> Advances(upTo, perDay, lo, days, k)
    ensures OnDays(perDay, days, n) == upTo(DayAfter(lo, days, n))
  {
    if n > 0 {
      OnDaysIsUpTo(upTo, perDay, lo, days, n - 1);
      assert Advances(upTo, perDay, lo, days, n - 1);
    }
  }

  lemma EachDayAdvances(f: Collector, lo: int, days: seq<int>, n: nat, c: Cycle)
    requires n < |days| && NoneSkipped(f, lo, days)
    ensures Advances(UpTo(f, lo, c), PerDay(f, c), lo, days, n)
  {
    assert GapIsSilent(f, lo, days, n);
    NextDay(f, lo, DayAfter(lo, days, n), days[n], c);
  }

  lemma FirstDayIsLeast(s: seq<Bar>, days: seq<int>, n: nat)
    requires Chronological(s) && s != [] && DaysOf(s, days) && n < |days|
    ensures DateOf(s[0].start) <= days[n]
  {
    assert HasDay(s, days[n]);
    var k :| 0 <= k < |s| && DateOf(s[k].start) == days[n];
    assert s[0].start <= s[k].start;
  }

  /** No bar falls on a day between two neighbouring days of the grouping. */
  lemma NoDayBetween(s: seq<Bar>, days: seq<int>, n: nat, k: nat)
    requires Chronological(s) && s != [] && Ascending(days) && DaysOf(s, days) && n < |days| && k < |s|
    ensures !((if n == 0 then DateOf(s[0].start) else days[n-1] + 1) <= DateOf(s[k].start) < days[n])
  {
    assert DateOf(s[k].start) in days;
    var j :| 0 <= j < |days| && days[j] == DateOf(s[k].start);
  }

  lemma GroupingSkipsNoDay(s: seq<Bar>, days: seq<int>, instrument: string, c: Cycle)
    requires Chronological(s) && s != [] && Ascending(days) && DaysOf(s, days)
    ensures NoneSkipped(Summaries(s, instrument, c), DateOf(s[0].start), days)
  {
    var lo := DateOf(s[0].start);
    forall n | 0 <= n < |days| ensures GapIsSilent(Summaries(s, instrument, c), lo, days, n) {
      FirstDayIsLeast(s, days, n);
      if n > 0 {
        FirstDayIsLeast(s, days, n - 1);
      }
      forall k | 0 <= k < |s| ensures !(DayAfter(lo, days, n) <= DateOf(s[k].start) < days[n]) {
        NoDayBetween(s, days, n, k);
      }
      NoBarsNoSummaries(s, instrument, c, DayAfter(lo, days, n), days[n]);
    }
  }

  lemma LastDay(s: seq<Bar>, days: seq<int>)
    requires Chronological(s) && s != [] && Ascending(days) && DaysOf(s, days)
    ensures DayAfter(DateOf(s[0].start), days, |days|) == DateOf(s[|s|-1].start) + 1
  {
    assert DateOf(s[|s|-1].start) in days;
    var j :| 0 <= j < |days| && days[j] == DateOf(s[|s|-1].start);
    assert HasDay(s, days[|days|-1]);
    var k :| 0 <= k < |s| && DateOf(s[k].start) == days[|days|-1];
    assert s[k].start <= s[|s|-1].start;
  }

  /** Going through the days of the grouping is going through all days from the first bar's to the last's. */
  lemma OnlyDaysWithBars(s: seq<Bar>, days: seq<int>, c: Cycle)
    requires Chronological(s) && s != [] && Ascending(days) && DaysOf(s, days)
    ensures OnDays(PerDay(Summaries(s, s[0].instrument, c), c), days, |days|) == AggregatedSorted(s, c)
  {
    var f, lo := Summaries(s, s[0].instrument, c), DateOf(s[0].start);
    GroupingSkipsNoDay(s, days, s[0].instrument, c);
    forall n | 0 <= n < |days| ensures Advances(UpTo(f, lo, c), PerDay(f, c), lo, days, n) {
      EachDayAdvances(f, lo, days, n, c);
    }
    assert AllBoundaries(lo, lo, CycleSeconds(c)) == [];
    OnDaysIsUpTo(UpTo(f, lo, c), PerDay(f, c), lo, days, |days|);
    LastDay(s, days);
  }
}
