/** K-line bars and the chronological ordering of a bar stream. Times are whole seconds. */
module Bars {

  datatype Cycle = M1 | M5 | M15 | M30 | M60

  datatype Bar = Bar(
    instrument: string,
    cycle: Cycle,
    start: int,
    end: int,
    open: real,
    high: real,
    low: real,
    close: real,
    volume: int,
    amount: real,
    completed: bool)

  /** The calendar day of a time stamp. */
  function DateOf(t: int): int {
    t / 86400
  }

  /** Midnight of a calendar day. */
  function DayStart(day: int): int {
    day * 86400
  }

  /** A day is the 86400 seconds from its midnight to the next. */
  lemma DayOfTime(t: int, day: int)
    ensures DateOf(t) == day <==> 86400 * day <= t < 86400 * (day + 1)
    ensures DateOf(t) == day <==> DayStart(day) <= t < DayStart(day + 1)
  {
  }

  predicate Chronological(bars: seq<Bar>) {
    forall i, j :: 0 <= i < j < |bars| ==> bars[i].start <= bars[j].start
  }

  /** The bars that start at `t`, in stream order. */
  function StartingAt(bars: seq<Bar>, t: int): seq<Bar> {
    if bars == [] then []
    else if bars[0].start == t then [bars[0]] + StartingAt(bars[1..], t)
    else StartingAt(bars[1..], t)
  }

  /** Puts `b` in front of the first bar that starts no earlier than it. */
  function InsertByStart(b: Bar, bars: seq<Bar>): (r: seq<Bar>)
    ensures |r| == |bars| + 1
  {
    if bars == [] || b.start <= bars[0].start then [b] + bars
    else [bars[0]] + InsertByStart(b, bars[1..])
  }

  /** The stable sort by start time that the engine and the bar builder ask their list sort for. */
  function SortByStart(bars: seq<Bar>): (r: seq<Bar>)
    ensures |r| == |bars|
  {
    if bars == [] then [] else InsertByStart(bars[0], SortByStart(bars[1..]))
  }

  lemma {:induction false} InsertByStartPermutes(b: Bar, bars: seq<Bar>)
    ensures multiset(InsertByStart(b, bars)) == multiset{b} + multiset(bars)
  {
    if !(bars == [] || b.start <= bars[0].start) {
      InsertByStartPermutes(b, bars[1..]);
      assert bars == [bars[0]] + bars[1..];
    }
  }

  lemma {:induction false} InsertByStartKeepsOrder(b: Bar, bars: seq<Bar>)
    requires Chronological(bars)
    ensures Chronological(InsertByStart(b, bars))
  {
    if !(bars == [] || b.start <= bars[0].start) {
      var rest := InsertByStart(b, bars[1..]);
      InsertByStartKeepsOrder(b, bars[1..]);
      InsertByStartPermutes(b, bars[1..]);
      forall k | 0 <= k < |rest| ensures bars[0].start <= rest[k].start {
        assert rest[k] in multiset(rest);
        assert rest[k] == b || rest[k] in bars[1..];
      }
    }
  }

  lemma {:induction false} InsertByStartIsStable(b: Bar, bars: seq<Bar>, t: int)
    ensures StartingAt(InsertByStart(b, bars), t) == if b.start == t then [b] + StartingAt(bars, t)
        else StartingAt(bars, t)
  {
    if bars == [] || b.start <= bars[0].start {
      assert ([b] + bars)[1..] == bars;
    } else {
      var rest := InsertByStart(b, bars[1..]);
      InsertByStartIsStable(b, bars[1..], t);
      assert ([bars[0]] + rest)[1..] == rest;
    }
  }

  /** Sorting yields a chronological, stable rearrangement of the same bars. */
  lemma {:induction false} SortByStartIsStable(bars: seq<Bar>)
    ensures Chronological(SortByStart(bars))
    ensures multiset(SortByStart(bars)) == multiset(bars)
    ensures forall t :: StartingAt(SortByStart(bars), t) == StartingAt(bars, t)
  {
    if bars != [] {
      SortByStartIsStable(bars[1..]);
      InsertByStartKeepsOrder(bars[0], SortByStart(bars[1..]));
      InsertByStartPermutes(bars[0], SortByStart(bars[1..]));
      assert bars == [bars[0]] + bars[1..];
      forall t ensures StartingAt(SortByStart(bars), t) == StartingAt(bars, t) {
        InsertByStartIsStable(bars[0], SortByStart(bars[1..]), t);
      }
    }
  }

  /** Sorting a stream that is already chronological changes nothing. */
  lemma {:induction false} SortByStartOfSorted(bars: seq<Bar>)
    requires Chronological(bars)
    ensures SortByStart(bars) == bars
  {
    if bars != [] {
      SortByStartOfSorted(bars[1..]);
    }
  }
}
