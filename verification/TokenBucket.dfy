/** The token-bucket limiter of the data client. Times are exact seconds of a monotone clock. */
module TokenBucket {

  const POLL_INTERVAL := 0.05

  datatype State = State(tokens: real, lastRefill: real)

  function RefillRate(callsPerMinute: int): real {
    callsPerMinute as real / 60.0
  }

  /** The tokens that accrue in the given time. */
  function Gain(seconds: real, rate: real): real {
    seconds * rate
  }

  function Refilled(s: State, now: real, callsPerMinute: int): State {
    var grown := s.tokens + Gain(now - s.lastRefill, RefillRate(callsPerMinute));
    State(if grown < callsPerMinute as real then grown else callsPerMinute as real, now)
  }

  /** One pass through the waiting loop: refill, and take a token if there is a whole one. */
  function Poll(s: State, now: real, callsPerMinute: int): (State, bool) {
    var r := Refilled(s, now, callsPerMinute);
    if r.tokens >= 1.0 then (r.(tokens := r.tokens - 1.0), true) else (r, false)
  }

  function New(now: real, callsPerMinute: int): State {
    State(callsPerMinute as real, now)
  }

  // ---------------------------------------------------------------- any run of polls

  /** The polls, by whichever waiters, happen in the order of the lock. */
  ghost predicate InOrder(times: seq<real>, since: real) {
    times == [] || (since <= times[0] && InOrder(times[1..], times[0]))
  }

  function StateAfter(s: State, times: seq<real>, callsPerMinute: int): State
    decreases |times|
  {
    if times == [] then s else StateAfter(Poll(s, times[0], callsPerMinute).0, times[1..], callsPerMinute)
  }

  function Grants(s: State, times: seq<real>, callsPerMinute: int): nat
    decreases |times|
  {
    if times == [] then 0
    else
      var (s', granted) := Poll(s, times[0], callsPerMinute);
      (if granted then 1 else 0) + Grants(s', times[1..], callsPerMinute)
  }

  lemma GainAdds(x: real, y: real, rate: real)
    ensures Gain(x + y, rate) == Gain(x, rate) + Gain(y, rate)
  {
  }

  lemma GainNotNegative(x: real, rate: real)
    requires x >= 0.0 && rate >= 0.0
    ensures Gain(x, rate) >= 0.0
  {
  }

  ghost predicate InRange(s: State, callsPerMinute: int) {
    0.0 <= s.tokens <= callsPerMinute as real
  }

  lemma PollInRange(s: State, now: real, callsPerMinute: int)
    requires callsPerMinute >= 0 && InRange(s, callsPerMinute) && s.lastRefill <= now
    ensures InRange(Poll(s, now, callsPerMinute).0, callsPerMinute)
    ensures Poll(s, now, callsPerMinute).0.lastRefill == now
  {
    GainNotNegative(now - s.lastRefill, RefillRate(callsPerMinute));
  }

  /** The number of tokens stays between nought and the calls per minute. */
  lemma {:induction false} TokensInRange(s: State, times: seq<real>, callsPerMinute: int)
    requires callsPerMinute >= 0 && InRange(s, callsPerMinute) && InOrder(times, s.lastRefill)
    ensures InRange(StateAfter(s, times, callsPerMinute), callsPerMinute)
    decreases |times|
  {
    if times != [] {
      PollInRange(s, times[0], callsPerMinute);
      TokensInRange(Poll(s, times[0], callsPerMinute).0, times[1..], callsPerMinute);
    }
  }

  ghost predicate Until(times: seq<real>, end: real) {
    forall k :: 0 <= k < |times| ==> times[k] <= end
  }

  /** What is granted from now on is paid for by the tokens at hand and those still to come. */
  lemma {:induction false} GrantsArePaidFor(s: State, times: seq<real>, end: real, callsPerMinute: int)
    requires callsPerMinute >= 0 && InRange(s, callsPerMinute)
    requires InOrder(times, s.lastRefill) && Until(times, end) && s.lastRefill <= end
    ensures Grants(s, times, callsPerMinute) as real <= s.tokens + Gain(end - s.lastRefill, RefillRate(callsPerMinute))
    decreases |times|
  {
    var rate := RefillRate(callsPerMinute);
    if times == [] {
      GainNotNegative(end - s.lastRefill, rate);
    } else {
      var now := times[0];
      assert now <= end;
      PollInRange(s, now, callsPerMinute);
      GrantsArePaidFor(Poll(s, now, callsPerMinute).0, times[1..], end, callsPerMinute);
      GainAdds(now - s.lastRefill, end - now, rate);
    }
  }

  /** A minute's share: what accrues is the calls per minute for every sixty seconds. */
  lemma GainOfSeconds(seconds: real, callsPerMinute: int)
    ensures Gain(seconds, RefillRate(callsPerMinute)) == seconds * callsPerMinute as real / 60.0
  {
  }

  /** After `now - last` idle seconds a bucket has what it had and the calls per minute for every sixty of them, up to
      its capacity. */
  lemma Accrues(s: State, now: real, callsPerMinute: int)
    ensures var r, grown := Refilled(s, now, callsPerMinute),
        s.tokens + (now - s.lastRefill) * callsPerMinute as real / 60.0;
      && r.lastRefill == now
      && r.tokens <= grown && r.tokens <= callsPerMinute as real
      && (r.tokens == grown || r.tokens == callsPerMinute as real)
  {
    GainOfSeconds(now - s.lastRefill, callsPerMinute);
  }

  /** A poll is granted exactly if a whole token has accrued by then, and then takes it. */
  lemma GrantedExactlyWhen(s: State, now: real, callsPerMinute: int)
    ensures var (s', granted) := Poll(s, now, callsPerMinute);
      && (granted <==> callsPerMinute >= 1 && s.tokens + (now - s.lastRefill) * callsPerMinute as real / 60.0 >= 1.0)
      && s'.tokens == Refilled(s, now, callsPerMinute).tokens - (if granted then 1.0 else 0.0)
  {
    Accrues(s, now, callsPerMinute);
    assert callsPerMinute as real >= 1.0 <==> callsPerMinute >= 1;
  }

  /** What an interval grants is a full bucket and what accrues meanwhile. */
  lemma GrantsUseTheBucket(mid: State, times: seq<real>, begin: real, end: real, callsPerMinute: int)
    requires callsPerMinute >= 0 && InRange(mid, callsPerMinute) && InOrder(times, mid.lastRefill)
    requires begin <= end && Until(times, end) && forall k :: 0 <= k < |times| ==> begin <= times[k]
    ensures Grants(mid, times, callsPerMinute) as real
         <= callsPerMinute as real + Gain(end - begin, RefillRate(callsPerMinute))
  {
    var rate := RefillRate(callsPerMinute);
    GainNotNegative(end - begin, rate);
    if times != [] {
      var now := times[0];
      PollInRange(mid, now, callsPerMinute);
      GrantsArePaidFor(Poll(mid, now, callsPerMinute).0, times[1..], end, callsPerMinute);
      GainAdds(now - begin, end - now, rate);
      GainNotNegative(now - begin, rate);
    }
  }

  /** At most calls_per_minute and a sixtieth of it for every second. */
  predicate Within(grants: nat, seconds: real, callsPerMinute: int) {
    grants as real <= callsPerMinute as real + seconds * callsPerMinute as real / 60.0
  }

  lemma BoundInSeconds(grants: nat, seconds: real, callsPerMinute: int)
    requires grants as real <= callsPerMinute as real + Gain(seconds, RefillRate(callsPerMinute))
    ensures Within(grants, seconds, callsPerMinute)
  {
    GainOfSeconds(seconds, callsPerMinute);
  }

  /** In any interval of `end - begin` seconds at most calls_per_minute plus
      (end - begin) * calls_per_minute / 60 acquisitions are granted, whatever happened before. */
  lemma {:induction false} GrantsInInterval(s: State, before: seq<real>, times: seq<real>, begin: real, end: real,
        callsPerMinute: int)
    requires callsPerMinute >= 0 && InRange(s, callsPerMinute)
    requires InOrder(before, s.lastRefill) && InOrder(times, StateAfter(s, before, callsPerMinute).lastRefill)
    requires begin <= end && Until(times, end) && forall k :: 0 <= k < |times| ==> begin <= times[k]
    ensures Within(Grants(StateAfter(s, before, callsPerMinute), times, callsPerMinute), end - begin, callsPerMinute)
  {
    var mid := StateAfter(s, before, callsPerMinute);
    TokensInRange(s, before, callsPerMinute);
    GrantsUseTheBucket(mid, times, begin, end, callsPerMinute);
    BoundInSeconds(Grants(mid, times, callsPerMinute), end - begin, callsPerMinute);
  }

  /** With no calls a minute allowed nothing is ever granted. */
  lemma {:induction false} NothingGranted(s: State, times: seq<real>, callsPerMinute: int)
    requires callsPerMinute <= 0
    ensures Grants(s, times, callsPerMinute) == 0
    decreases |times|
  {
    if times != [] {
      NothingGranted(Poll(s, times[0], callsPerMinute).0, times[1..], callsPerMinute);
    }
  }

  // ---------------------------------------------------------------- waiting

  lemma OneTokenAMinuteShare(seconds: real, callsPerMinute: int)
    requires callsPerMinute >= 1 && seconds >= 60.0 / callsPerMinute as real
    ensures Gain(seconds, RefillRate(callsPerMinute)) >= 1.0
  {
    var n := callsPerMinute as real;
    assert n >= 1.0;
    assert (60.0 / n) * (n / 60.0) == 1.0;
    GainAdds(60.0 / n, seconds - 60.0 / n, n / 60.0);
    GainNotNegative(seconds - 60.0 / n, n / 60.0);
  }

  /** Refused polls only let time pass: polling in between changes nothing. */
  lemma RefusedPollIsHarmless(s: State, t: real, now: real, callsPerMinute: int)
    requires callsPerMinute >= 0 && InRange(s, callsPerMinute) && s.lastRefill <= t <= now
    requires !Poll(s, t, callsPerMinute).1
    ensures Refilled(Poll(s, t, callsPerMinute).0, now, callsPerMinute) == Refilled(s, now, callsPerMinute)
  {
    var rate := RefillRate(callsPerMinute);
    GainAdds(t - s.lastRefill, now - t, rate);
    GainNotNegative(now - t, rate);
  }

  /** Nobody waits longer than one token takes to accrue: if every poll since a refill was refused, the
      last of them came less than 60 / calls_per_minute seconds after it. */
  lemma {:induction false} RefusedOnlyBriefly(s: State, times: seq<real>, callsPerMinute: int)
    requires callsPerMinute >= 1 && InRange(s, callsPerMinute) && InOrder(times, s.lastRefill) && times != []
    requires Grants(s, times, callsPerMinute) == 0
    ensures times[|times|-1] - s.lastRefill < 60.0 / callsPerMinute as real
    decreases |times|
  {
    var n := |times| - 1;
    RefusedReach(s, times, callsPerMinute);
    if times[n] - s.lastRefill >= 60.0 / callsPerMinute as real {
      OneTokenAMinuteShare(times[n] - s.lastRefill, callsPerMinute);
    }
  }

  lemma {:induction false} RefusedReach(s: State, times: seq<real>, callsPerMinute: int)
    requires callsPerMinute >= 1 && InRange(s, callsPerMinute) && InOrder(times, s.lastRefill) && times != []
    requires Grants(s, times, callsPerMinute) == 0
    ensures !Poll(s, times[|times|-1], callsPerMinute).1
    ensures s.lastRefill <= times[|times|-1]
    decreases |times|
  {
    if |times| > 1 {
      var s' := Poll(s, times[0], callsPerMinute).0;
      PollInRange(s, times[0], callsPerMinute);
      RefusedReach(s', times[1..], callsPerMinute);
      assert times[1..][|times|-2] == times[|times|-1];
      RefusedPollIsHarmless(s, times[0], times[|times|-1], callsPerMinute);
    }
  }

  // ---------------------------------------------------------------- the limiter

  class TushareRateLimiter {
    const maxTokens: int
    const refillRate: real
    var tokens: real
    var lastRefill: real

    ghost predicate Valid()
    {
      refillRate == RefillRate(maxTokens)
    }

    ghost function View(): State
      reads this
    {
      State(tokens, lastRefill)
    }

    constructor (callsPerMinute: int, now: real)
      ensures Valid() && maxTokens == callsPerMinute && View() == New(now, callsPerMinute)
    {
      maxTokens := callsPerMinute;
      tokens := callsPerMinute as real;
      refillRate := callsPerMinute as real / 60.0;
      lastRefill := now;
    }

    method Refill(now: real)
      requires Valid()
      modifies this
      ensures View() == Refilled(old(View()), now, maxTokens)
    {
      var elapsed := now - lastRefill;
      var grown := tokens + Gain(elapsed, refillRate);
      tokens := if grown < maxTokens as real then grown else maxTokens as real;
      lastRefill := now;
    }

    method TryAcquire(now: real) returns (granted: bool)
      requires Valid()
      modifies this
      ensures (View(), granted) == Poll(old(View()), now, maxTokens)
    {
      Refill(now);
      if tokens >= 1.0 {
        tokens := tokens - 1.0;
        return true;
      }
      return false;
    }

    /** Polls until a token is there. `clock(k)` is the time read by the k-th poll; at least the polling
        interval passes between two polls. The number of polls is bounded by the time one token takes. */
    method Acquire(clock: nat -> real) returns (polls: nat)
      requires Valid() && maxTokens >= 1 && InRange(View(), maxTokens) && lastRefill <= clock(0)
      requires forall k: nat :: clock(k) + POLL_INTERVAL <= clock(k + 1)
      modifies this
      ensures polls > 0 && InRange(View(), maxTokens) && lastRefill == clock(polls - 1)
      ensures tokens == Refilled(old(View()), clock(polls - 1), maxTokens).tokens - 1.0
      ensures polls > 1 ==> clock(polls - 2) - old(lastRefill) < 60.0 / maxTokens as real
      ensures tokens + 1.0 <= old(tokens) + (lastRefill - old(lastRefill)) * maxTokens as real / 60.0
    {
      ghost var start := View();
      polls := 0;
      ghost var wait := 60.0 / maxTokens as real;
      while true
        invariant InRange(View(), maxTokens) && start.lastRefill <= lastRefill <= clock(polls)
        invariant forall now :: lastRefill <= now ==>
            Refilled(View(), now, maxTokens) == Refilled(start, now, maxTokens)
        invariant polls > 0 ==> lastRefill == clock(polls - 1) && clock(polls - 1) - start.lastRefill < wait
        decreases 20.0 * (wait + start.lastRefill - clock(polls)) + 1.0
      {
        ghost var before := View();
        var now := clock(polls);
        assert Refilled(before, now, maxTokens) == Refilled(start, now, maxTokens);
        PollInRange(before, now, maxTokens);
        var granted := TryAcquire(now);
        polls := polls + 1;
        if granted {
          Accrues(start, now, maxTokens);
          return;
        }
        assert clock(polls - 1) + POLL_INTERVAL <= clock(polls);
        forall later | now <= later ensures Refilled(View(), later, maxTokens) == Refilled(start, later, maxTokens) {
          RefusedPollIsHarmless(before, now, later, maxTokens);
        }
        if now - start.lastRefill >= wait {
          OneTokenAMinuteShare(now - start.lastRefill, maxTokens);
        }
      }
    }
  }
}
