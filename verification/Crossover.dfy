/** The dual moving-average crossover strategy and its truncated buffer of closes. */
module Crossover {
  import opened Arithmetic
  import opened Wrappers

  datatype Signal = OpenLong | CloseLong

  datatype ParamError = FastNotBelowSlow | FastTooShort | SlowTooShort

  function CheckParams(fast: int, slow: int): Option<ParamError> {
    if fast >= slow then Some(FastNotBelowSlow)
    else if fast < 2 then Some(FastTooShort)
    else if slow < 5 then Some(SlowTooShort)
    else None
  }

  predicate ValidPeriods(fast: int, slow: int) {
    2 <= fast < slow && slow >= 5
  }

  function Sum(closes: seq<real>): real {
    if closes == [] then 0.0 else Sum(closes[..|closes|-1]) + closes[|closes|-1]
  }

  /** The last `n` closes. */
  function Tail(closes: seq<real>, n: int): seq<real>
    requires 0 <= n <= |closes|
  {
    closes[|closes|-n..]
  }

  function Average(closes: seq<real>, n: int): real
    requires 0 < n <= |closes|
  {
    Sum(Tail(closes, n)) / n as real
  }

  predicate FastAbove(closes: seq<real>, fast: int, slow: int)
    requires 0 < fast <= slow <= |closes|
  {
    Average(closes, fast) > Average(closes, slow)
  }

  datatype State = State(closes: seq<real>, prevFastAbove: Option<bool>)

  const FRESH := State([], None)

  /** Whether the averages changed sides. */
  function Crossing(prev: Option<bool>, above: bool): Option<Signal> {
    if prev == Some(false) && above then Some(OpenLong)
    else if prev == Some(true) && !above then Some(CloseLong)
    else None
  }

  function Generate(s: State, fast: int, slow: int): (State, Option<Signal>)
    requires ValidPeriods(fast, slow)
  {
    if |s.closes| < slow then (s, None)
    else
      var above := FastAbove(s.closes, fast, slow);
      (s.(prevFastAbove := Some(above)), Crossing(s.prevFastAbove, above))
  }

  /** Appends a close, keeping only the last slow + 1 of them. */
  function Truncated(closes: seq<real>, slow: int): seq<real>
    requires slow >= 0
  {
    if |closes| > slow + 1 then Tail(closes, slow + 1) else closes
  }

  datatype Event = BarClosed(close: real) | SignalAsked

  /** The strategy as it is, remembering slow + 1 closes. */
  function Step(s: State, e: Event, fast: int, slow: int): (State, Option<Signal>)
    requires ValidPeriods(fast, slow)
  {
    match e
    case BarClosed(close) => (s.(closes := Truncated(s.closes + [close], slow)), None)
    case SignalAsked => Generate(s, fast, slow)
  }

  /** The strategy remembering every close. */
  function FullStep(s: State, e: Event, fast: int, slow: int): (State, Option<Signal>)
    requires ValidPeriods(fast, slow)
  {
    match e
    case BarClosed(close) => (s.(closes := s.closes + [close]), None)
    case SignalAsked => Generate(s, fast, slow)
  }

  /** The state and the signals given, in order, after a history of events. */
  function Run(events: seq<Event>, fast: int, slow: int): (State, seq<Signal>)
    requires ValidPeriods(fast, slow)
  {
    if events == [] then (FRESH, [])
    else
      var (s, given) := Run(events[..|events|-1], fast, slow);
      var (s', signal) := Step(s, events[|events|-1], fast, slow);
      (s', if signal.Some? then given + [signal.value] else given)
  }

  function FullRun(events: seq<Event>, fast: int, slow: int): (State, seq<Signal>)
    requires ValidPeriods(fast, slow)
  {
    if events == [] then (FRESH, [])
    else
      var (s, given) := FullRun(events[..|events|-1], fast, slow);
      var (s', signal) := FullStep(s, events[|events|-1], fast, slow);
      (s', if signal.Some? then given + [signal.value] else given)
  }

  // ---------------------------------------------------------------- the buffer is enough

  /** `kept` is what the buffer holds of `all`. */
  ghost predicate BufferOf(kept: seq<real>, all: seq<real>, slow: int)
    requires slow >= 0
  {
    kept == Truncated(all, slow)
  }

  lemma AppendKeepsBuffer(kept: seq<real>, all: seq<real>, close: real, slow: int)
    requires slow >= 0 && BufferOf(kept, all, slow)
    ensures BufferOf(Truncated(kept + [close], slow), all + [close], slow)
  {
    if |all| > slow + 1 {
      assert Tail(kept + [close], slow + 1) == Tail(all + [close], slow + 1);
    }
  }

  lemma BufferTail(kept: seq<real>, all: seq<real>, n: int, slow: int)
    requires 0 <= n <= slow <= |all| && BufferOf(kept, all, slow)
    ensures n <= |kept| && Tail(kept, n) == Tail(all, n)
  {
  }

  lemma GenerateSame(kept: State, full: State, fast: int, slow: int)
    requires ValidPeriods(fast, slow) && BufferOf(kept.closes, full.closes, slow)
        && kept.prevFastAbove == full.prevFastAbove
    ensures var (kept', given) := Generate(kept, fast, slow); var (full', given') := Generate(full, fast, slow);
      && given == given' && kept'.prevFastAbove == full'.prevFastAbove
      && kept'.closes == kept.closes && full'.closes == full.closes
  {
    if |full.closes| >= slow {
      BufferTail(kept.closes, full.closes, fast, slow);
      BufferTail(kept.closes, full.closes, slow, slow);
    }
  }

  /** For any history of bars and signal requests the truncated buffer gives the same signals as the
      averages over the full history. */
  lemma {:induction false} BufferIsEnough(events: seq<Event>, fast: int, slow: int)
    requires ValidPeriods(fast, slow)
    ensures var (kept, given) := Run(events, fast, slow); var (full, given') := FullRun(events, fast, slow);
      && given == given' && kept.prevFastAbove == full.prevFastAbove
      && BufferOf(kept.closes, full.closes, slow) && |kept.closes| <= slow + 1
  {
    if events != [] {
      var front, e := events[..|events|-1], events[|events|-1];
      BufferIsEnough(front, fast, slow);
      var kept, full := Run(front, fast, slow).0, FullRun(front, fast, slow).0;
      match e
      case BarClosed(close) => AppendKeepsBuffer(kept.closes, full.closes, close, slow);
      case SignalAsked => GenerateSame(kept, full, fast, slow);
    }
  }

  // ---------------------------------------------------------------- signals alternate

  predicate Alternating(given: seq<Signal>) {
    forall k :: 0 < k < |given| ==> given[k-1] != given[k]
  }

  /** OPEN_LONG and CLOSE_LONG strictly alternate; the last signal says which average is above. */
  lemma {:induction false} SignalsAlternate(events: seq<Event>, fast: int, slow: int)
    requires ValidPeriods(fast, slow)
    ensures var (s, given) := Run(events, fast, slow);
      && Alternating(given)
      && (given != [] ==> s.prevFastAbove == Some(given[|given|-1] == OpenLong))
  {
    if events != [] {
      SignalsAlternate(events[..|events|-1], fast, slow);
    }
  }

  // ---------------------------------------------------------------- the strategy object

  class DualMACrossoverStrategy {
    var fastPeriod: int
    var slowPeriod: int
    var closes: seq<real>
    var prevFastAbove: Option<bool>

    ghost predicate Valid()
      reads this
    {
      ValidPeriods(fastPeriod, slowPeriod)
    }

    ghost function View(): State
      reads this
    {
      State(closes, prevFastAbove)
    }

    constructor ()
      ensures Valid() && fastPeriod == 5 && slowPeriod == 20 && View() == FRESH
    {
      fastPeriod, slowPeriod := 5, 20;
      closes, prevFastAbove := [], None;
    }

    /** Sets the periods. They are stored before they are checked, so a failed initialisation leaves the
        strategy with periods it must not be used with, and with the state it had. */
    method OnInit(fast: int, slow: int) returns (error: Option<ParamError>)
      modifies this
      ensures error == CheckParams(fast, slow)
      ensures fastPeriod == fast && slowPeriod == slow
      ensures error == None <==> Valid()
      ensures View() == if error == None then FRESH else old(View())
    {
      fastPeriod, slowPeriod := fast, slow;
      if fastPeriod >= slowPeriod {
        return Some(FastNotBelowSlow);
      }
      if fastPeriod < 2 {
        return Some(FastTooShort);
      }
      if slowPeriod < 5 {
        return Some(SlowTooShort);
      }
      closes, prevFastAbove := [], None;
      return None;
    }

    method OnBar(close: real)
      requires Valid()
      modifies `closes
      ensures View() == Step(old(View()), BarClosed(close), fastPeriod, slowPeriod).0
    {
      closes := closes + [close];
      var maxKeep := slowPeriod + 1;
      if |closes| > maxKeep {
        closes := closes[|closes|-maxKeep..];
      }
    }

    method GenerateSignal() returns (signal: Option<Signal>)
      requires Valid()
      modifies `prevFastAbove
      ensures (View(), signal) == Step(old(View()), SignalAsked, fastPeriod, slowPeriod)
    {
      if |closes| < slowPeriod {
        return None;
      }
      var fastMa := Sum(closes[|closes|-fastPeriod..]) / fastPeriod as real;
      var slowMa := Sum(closes[|closes|-slowPeriod..]) / slowPeriod as real;
      var fastAbove := fastMa > slowMa;
      signal := None;
      if prevFastAbove.Some? {
        if fastAbove && !prevFastAbove.value {
          signal := Some(OpenLong);
        } else if !fastAbove && prevFastAbove.value {
          signal := Some(CloseLong);
        }
      }
      prevFastAbove := Some(fastAbove);
    }
  }

  // ---------------------------------------------------------------- what the signals say about prices

  /** All closes of a history. */
  function Closes(events: seq<Event>): seq<real> {
    if events == [] then []
    else
      var earlier := Closes(events[..|events|-1]);
      if events[|events|-1].BarClosed? then earlier + [events[|events|-1].close] else earlier
  }

  /** The mean of the last `fast` closes is above that of the last `slow`, compared without dividing. */
  predicate MeanAbove(closes: seq<real>, fast: int, slow: int)
    requires 0 < fast <= slow <= |closes|
  {
    Sum(closes[|closes|-fast..]) * slow as real > Sum(closes[|closes|-slow..]) * fast as real
  }

  lemma CrossMultiplied(a: real, m: real, b: real, n: real)
    requires m > 0.0 && n > 0.0
    ensures a / m > b / n <==> a * n > b * m
  {
    TimesBack(a, m);
    TimesBack(b, n);
    var x, y := a / m, b / n;
    assert a * n == x * (m * n) && b * m == y * (m * n);
    if x > y {
      MulLt(y, x, m * n);
    } else {
      MulLe(x, y, m * n);
    }
  }

  lemma FastAboveIsMeanAbove(closes: seq<real>, fast: int, slow: int)
    requires 0 < fast <= slow <= |closes|
    ensures FastAbove(closes, fast, slow) <==> MeanAbove(closes, fast, slow)
  {
    CrossMultiplied(Sum(Tail(closes, fast)), fast as real, Sum(Tail(closes, slow)), slow as real);
  }

  lemma {:induction false} FullRunCloses(events: seq<Event>, fast: int, slow: int)
    requires ValidPeriods(fast, slow)
    ensures FullRun(events, fast, slow).0.closes == Closes(events)
  {
    if events != [] {
      FullRunCloses(events[..|events|-1], fast, slow);
    }
  }

  /** Asked after any history with enough closes, the strategy opens exactly if the fast mean of all closes has come to
      be above the slow one since it was last asked, and closes exactly if it has come not to be. */
  lemma SignalsFollowTheMeans(events: seq<Event>, fast: int, slow: int)
    requires ValidPeriods(fast, slow) && |Closes(events)| >= slow
    ensures var prev, closes := Run(events, fast, slow).0.prevFastAbove, Closes(events);
      var (s, given) := Run(events + [SignalAsked], fast, slow);
      var above := MeanAbove(closes, fast, slow);
      && s.prevFastAbove == Some(above)
      && given == Run(events, fast, slow).1
           + if above && prev == Some(false) then [OpenLong]
             else if !above && prev == Some(true) then [CloseLong]
             else []
  {
    var all := events + [SignalAsked];
    assert all[..|events|] == events;
    BufferIsEnough(events, fast, slow);
    BufferIsEnough(all, fast, slow);
    FullRunCloses(events, fast, slow);
    FastAboveIsMeanAbove(Closes(events), fast, slow);
    GenerateSame(Run(events, fast, slow).0, FullRun(events, fast, slow).0, fast, slow);
  }

  /** Which parameters are refused, and why first: a fast period not below the slow one, then one below two, then a slow
      period below five. Those accepted are the periods every statement here is about. */
  lemma ParamsExactlyWhen(fast: int, slow: int)
    ensures CheckParams(fast, slow) == Some(FastNotBelowSlow) <==> slow <= fast
    ensures CheckParams(fast, slow) == Some(FastTooShort) <==> fast < slow && fast < 2
    ensures CheckParams(fast, slow) == Some(SlowTooShort) <==> 2 <= fast < slow < 5
    ensures CheckParams(fast, slow) == None <==> 2 <= fast < slow && 5 <= slow
    ensures CheckParams(fast, slow) == None <==> ValidPeriods(fast, slow)
  {
  }

  /** The sum the means are made of takes every close once: of two stretches it is the sum of their sums. */
  lemma {:induction false} SumAdds(a: seq<real>, b: seq<real>)
    ensures Sum(a + b) == Sum(a) + Sum(b)
    ensures |b| == 1 ==> Sum(b) == b[0]
  {
    if b == [] {
      assert a + b == a;
    } else {
      assert (a + b)[..|a + b|-1] == a + b[..|b|-1];
      SumAdds(a, b[..|b|-1]);
    }
  }
}
