/** The tool gateway's sliding-window rate limit with eviction of stale tasks. Times are exact seconds. */
module SlidingWindow {

  const WINDOW := 60.0
  const STALE_AFTER := 120.0
  const MAX_TASKS := 1000

  type Timestamps = map<string, seq<real>>

  datatype Call = Call(task: string, time: real)

  /** The timestamps of the last minute. */
  function Recent(ts: seq<real>, now: real): (r: seq<real>)
    ensures |r| <= |ts|
  {
    if ts == [] then []
    else if now - ts[|ts|-1] < WINDOW then Recent(ts[..|ts|-1], now) + [ts[|ts|-1]]
    else Recent(ts[..|ts|-1], now)
  }

  predicate Stale(ts: seq<real>, now: real) {
    ts == [] || now - ts[|ts|-1] > STALE_AFTER
  }

  function Lookup(m: Timestamps, task: string): seq<real> {
    if task in m then m[task] else []
  }

  /** Once there are more than a thousand tasks, those without a call in two minutes are forgotten. */
  function Evicted(m: Timestamps, now: real): Timestamps {
    if |m| > MAX_TASKS then map task | task in m && !Stale(m[task], now) :: m[task] else m
  }

  /** One check: the new table, and whether the call is admitted. */
  function Check(m: Timestamps, task: string, now: real, limit: int): (Timestamps, bool) {
    var kept := Evicted(m, now);
    var ts := Recent(Lookup(kept, task), now);
    if |ts| >= limit then (kept, false) else (kept[task := ts + [now]], true)
  }

  /** The table and the decisions after a history of calls. */
  function Run(calls: seq<Call>, limit: int): (r: (Timestamps, seq<bool>))
    ensures |r.1| == |calls|
  {
    if calls == [] then (map[], [])
    else
      var (m, decisions) := Run(calls[..|calls|-1], limit);
      var last := calls[|calls|-1];
      var (m', ok) := Check(m, last.task, last.time, limit);
      (m', decisions + [ok])
  }

  class ToolGateway {
    const rateLimit: int
    var callTimestamps: Timestamps

    constructor (rateLimit: int)
      ensures callTimestamps == map[] && this.rateLimit == rateLimit
    {
      this.rateLimit := rateLimit;
      callTimestamps := map[];
    }

    method CheckRateLimit(task: string, now: real) returns (ok: bool)
      modifies this
      ensures (callTimestamps, ok) == Check(old(callTimestamps), task, now, rateLimit)
    {
      if |callTimestamps| > MAX_TASKS {
        callTimestamps := map key | key in callTimestamps && !Stale(callTimestamps[key], now) :: callTimestamps[key];
      }
      var timestamps := Recent(if task in callTimestamps then callTimestamps[task] else [], now);
      if |timestamps| >= rateLimit {
        return false;
      }
      callTimestamps := callTimestamps[task := timestamps + [now]];
      return true;
    }
  }

  // ---------------------------------------------------------------- a limiter that forgets nothing

  /** The times of the admitted calls of a task. */
  function AdmittedTimes(calls: seq<Call>, decisions: seq<bool>, task: string): seq<real>
    requires |decisions| == |calls|
  {
    if calls == [] then []
    else
      var n := |calls| - 1;
      var earlier := AdmittedTimes(calls[..n], decisions[..n], task);
      if decisions[n] && calls[n].task == task then earlier + [calls[n].time] else earlier
  }

  /** Admit a call exactly if fewer than `limit` calls of its task were admitted in the last minute. */
  function FullHistory(calls: seq<Call>, limit: int): (r: seq<bool>)
    ensures |r| == |calls|
  {
    if calls == [] then []
    else
      var n := |calls| - 1;
      var decisions := FullHistory(calls[..n], limit);
      decisions + [|Recent(AdmittedTimes(calls[..n], decisions, calls[n].task), calls[n].time)| < limit]
  }

  ghost predicate Monotone(calls: seq<Call>) {
    forall j, k :: 0 <= j < k < |calls| ==> calls[j].time <= calls[k].time
  }

  // ---------------------------------------------------------------- forgetting changes no decision

  ghost predicate Ascending(ts: seq<real>, now: real) {
    && (forall j, k :: 0 <= j < k < |ts| ==> ts[j] <= ts[k])
    && (forall k :: 0 <= k < |ts| ==> ts[k] <= now)
  }

  lemma {:induction false} RecentAppend(ts: seq<real>, t: real, now: real)
    ensures Recent(ts + [t], now) == if now - t < WINDOW then Recent(ts, now) + [t] else Recent(ts, now)
  {
    assert (ts + [t])[..|ts|] == ts;
  }

  lemma {:induction false} RecentOfRecent(ts: seq<real>, before: real, now: real)
    requires before <= now
    ensures Recent(Recent(ts, before), now) == Recent(ts, now)
  {
    if ts != [] {
      RecentOfRecent(ts[..|ts|-1], before, now);
      RecentAppend(Recent(ts[..|ts|-1], before), ts[|ts|-1], now);
    }
  }

  lemma AscendingAppend(ts: seq<real>, t: real, now: real)
    requires Ascending(ts, t) && t <= now
    ensures Ascending(ts + [t], now)
  {
  }

  lemma {:induction false} RecentAscending(ts: seq<real>, before: real, now: real)
    requires Ascending(ts, before)
    ensures Ascending(Recent(ts, now), before)
  {
    if ts != [] {
      var front, t := ts[..|ts|-1], ts[|ts|-1];
      RecentAscending(front, t, now);
      AscendingAppend(Recent(front, now), t, before);
    }
  }

  lemma {:induction false} NothingRecent(ts: seq<real>, now: real)
    requires forall k :: 0 <= k < |ts| ==> now - ts[k] >= WINDOW
    ensures Recent(ts, now) == []
  {
    if ts != [] {
      NothingRecent(ts[..|ts|-1], now);
    }
  }

  lemma StaleIsForgotten(ts: seq<real>, before: real, now: real)
    requires Ascending(ts, before) && Stale(ts, before) && before <= now
    ensures Recent(ts, now) == []
  {
    if ts != [] {
      assert forall k :: 0 <= k < |ts| ==> ts[k] <= ts[|ts|-1];
      NothingRecent(ts, now);
    }
  }

  /** At any time from `now` on, what the table holds for a task and the full history agree on the last minute. */
  ghost predicate Agrees(ts: seq<real>, full: seq<real>, now: real) {
    Ascending(ts, now) && forall later :: now <= later ==> Recent(ts, later) == Recent(full, later)
  }

  lemma EvictionAgrees(m: Timestamps, task: string, full: seq<real>, now: real)
    requires Agrees(Lookup(m, task), full, now)
    ensures Agrees(Lookup(Evicted(m, now), task), full, now)
  {
    var ts := Lookup(m, task);
    if task in m && task !in Evicted(m, now) {
      forall later | now <= later ensures Recent([], later) == Recent(full, later) {
        StaleIsForgotten(ts, now, later);
        assert Recent(ts, later) == Recent(full, later);
      }
    }
  }

  lemma TimePasses(ts: seq<real>, full: seq<real>, before: real, now: real)
    requires Agrees(ts, full, before) && before <= now
    ensures Agrees(ts, full, now)
  {
  }

  lemma AdmissionAgrees(ts: seq<real>, full: seq<real>, now: real)
    requires Agrees(ts, full, now)
    ensures Agrees(Recent(ts, now) + [now], full + [now], now)
  {
    RecentAscending(ts, now, now);
    var kept := Recent(ts, now);
    forall later | now <= later ensures Recent(kept + [now], later) == Recent(full + [now], later) {
      RecentOfRecent(ts, now, later);
      RecentAppend(kept, now, later);
      RecentAppend(full, now, later);
      assert Recent(ts, later) == Recent(full, later);
    }
  }

  lemma AdmittedTimesStep(calls: seq<Call>, decisions: seq<bool>, call: Call, ok: bool, task: string)
    requires |decisions| == |calls|
    ensures AdmittedTimes(calls + [call], decisions + [ok], task)
         == if ok && call.task == task then AdmittedTimes(calls, decisions, task) + [call.time]
            else AdmittedTimes(calls, decisions, task)
  {
    assert (calls + [call])[..|calls|] == calls && (decisions + [ok])[..|calls|] == decisions;
  }

  /** The clock reading of the last call, or any time before the first. */
  ghost predicate ClockAt(calls: seq<Call>, now: real) {
    forall k :: 0 <= k < |calls| ==> calls[k].time <= now
  }

  ghost predicate AllAgree(m: Timestamps, calls: seq<Call>, decisions: seq<bool>, now: real)
    requires |decisions| == |calls|
  {
    forall task :: Agrees(Lookup(m, task), AdmittedTimes(calls, decisions, task), now)
  }

  /** One check decides as the full history does and keeps the agreement. */
  lemma CheckAgrees(m: Timestamps, calls: seq<Call>, decisions: seq<bool>, call: Call, limit: int, before: real)
    requires |decisions| == |calls| && AllAgree(m, calls, decisions, before) && before <= call.time
    ensures var (m', ok) := Check(m, call.task, call.time, limit);
      && (ok <==> |Recent(AdmittedTimes(calls, decisions, call.task), call.time)| < limit)
      && AllAgree(m', calls + [call], decisions + [ok], call.time)
  {
    var now := call.time;
    var (m', ok) := Check(m, call.task, now, limit);
    var kept := Evicted(m, now);
    forall task ensures Agrees(Lookup(kept, task), AdmittedTimes(calls, decisions, task), now) {
      assert Agrees(Lookup(m, task), AdmittedTimes(calls, decisions, task), before);
      TimePasses(Lookup(m, task), AdmittedTimes(calls, decisions, task), before, now);
      EvictionAgrees(m, task, AdmittedTimes(calls, decisions, task), now);
    }
    assert Agrees(Lookup(kept, call.task), AdmittedTimes(calls, decisions, call.task), now);
    forall task ensures Agrees(Lookup(m', task), AdmittedTimes(calls + [call], decisions + [ok], task), now) {
      AdmittedTimesStep(calls, decisions, call, ok, task);
      if ok && task == call.task {
        AdmissionAgrees(Lookup(kept, task), AdmittedTimes(calls, decisions, task), now);
      }
    }
  }

  lemma {:induction false} RunAgrees(calls: seq<Call>, limit: int)
    requires Monotone(calls)
    ensures Run(calls, limit).1 == FullHistory(calls, limit)
    ensures forall now :: ClockAt(calls, now) ==> AllAgree(Run(calls, limit).0, calls, Run(calls, limit).1, now)
  {
    if calls != [] {
      var n := |calls| - 1;
      var front, last := calls[..n], calls[n];
      assert calls == front + [last];
      RunAgrees(front, limit);
      var (m, decisions) := Run(front, limit);
      assert ClockAt(front, last.time);
      CheckAgrees(m, front, decisions, last, limit, last.time);
      forall now | ClockAt(calls, now) ensures AllAgree(Run(calls, limit).0, calls, Run(calls, limit).1, now) {
        assert last.time <= now;
        AgreeLater(Run(calls, limit).0, calls, Run(calls, limit).1, last.time, now);
      }
    }
  }

  lemma AgreeLater(m: Timestamps, calls: seq<Call>, decisions: seq<bool>, before: real, now: real)
    requires |decisions| == |calls| && AllAgree(m, calls, decisions, before) && before <= now
    ensures AllAgree(m, calls, decisions, now)
  {
    forall task ensures Agrees(Lookup(m, task), AdmittedTimes(calls, decisions, task), now) {
      assert Agrees(Lookup(m, task), AdmittedTimes(calls, decisions, task), before);
      TimePasses(Lookup(m, task), AdmittedTimes(calls, decisions, task), before, now);
    }
  }

  /** On a clock that never runs backwards, dropping old timestamps and evicting stale tasks changes no
      decision: the gateway admits exactly the calls that the full history admits. */
  lemma EvictionChangesNothing(calls: seq<Call>, limit: int)
    requires Monotone(calls)
    ensures Run(calls, limit).1 == FullHistory(calls, limit)
  {
    RunAgrees(calls, limit);
  }

  // ---------------------------------------------------------------- the bound

  /** The timestamps in the half-open minute from `a` on. */
  function InMinute(ts: seq<real>, a: real): seq<real> {
    if ts == [] then []
    else if a <= ts[|ts|-1] < a + 60.0 then InMinute(ts[..|ts|-1], a) + [ts[|ts|-1]]
    else InMinute(ts[..|ts|-1], a)
  }

  lemma {:induction false} MinuteIsRecent(ts: seq<real>, a: real, now: real)
    requires a <= now < a + 60.0
    ensures |InMinute(ts, a)| <= |Recent(ts, now)|
  {
    if ts != [] {
      MinuteIsRecent(ts[..|ts|-1], a, now);
    }
  }

  lemma {:induction false} FullHistoryBound(calls: seq<Call>, limit: int, task: string, a: real)
    ensures |InMinute(AdmittedTimes(calls, FullHistory(calls, limit), task), a)| <= if limit >= 0 then limit else 0
  {
    if calls != [] {
      var n := |calls| - 1;
      var front, last := calls[..n], calls[n];
      var decisions := FullHistory(front, limit);
      var earlier := AdmittedTimes(front, decisions, task);
      FullHistoryBound(front, limit, task, a);
      assert FullHistory(calls, limit)[..n] == decisions;
      assert (earlier + [last.time])[..|earlier|] == earlier;
      if last.task == task && a <= last.time < a + 60.0 {
        MinuteIsRecent(earlier, a, last.time);
      }
    }
  }

  /** In any half-open minute at most `limit` calls of one task are admitted. */
  lemma AtMostLimitPerMinute(calls: seq<Call>, limit: int, task: string, a: real)
    requires Monotone(calls)
    ensures |InMinute(AdmittedTimes(calls, Run(calls, limit).1, task), a)| <= if limit >= 0 then limit else 0
  {
    EvictionChangesNothing(calls, limit);
    FullHistoryBound(calls, limit, task, a);
  }

  // ---------------------------------------------------------------- exactly when a call is refused

  /** How many of the timestamps are less than sixty seconds old. */
  function YoungerThanAMinute(ts: seq<real>, now: real): nat {
    if ts == [] then 0
    else YoungerThanAMinute(ts[..|ts|-1], now) + if ts[|ts|-1] > now - 60.0 then 1 else 0
  }

  lemma {:induction false} RecentIsYounger(ts: seq<real>, now: real)
    ensures |Recent(ts, now)| == YoungerThanAMinute(ts, now)
  {
    if ts != [] {
      RecentIsYounger(ts[..|ts|-1], now);
    }
  }

  /** The last call of any history on a clock that never runs backwards is admitted exactly if fewer than `limit` calls
      of its task were admitted in the sixty seconds up to it. */
  lemma AdmittedExactlyWhen(calls: seq<Call>, limit: int)
    requires Monotone(calls) && calls != []
    ensures var n := |calls| - 1;
      var front := calls[..n];
      Run(calls, limit).1[n] <==>
        YoungerThanAMinute(AdmittedTimes(front, Run(front, limit).1, calls[n].task), calls[n].time) < limit
  {
    var n := |calls| - 1;
    EvictionChangesNothing(calls, limit);
    EvictionChangesNothing(calls[..n], limit);
    RecentIsYounger(AdmittedTimes(calls[..n], FullHistory(calls[..n], limit), calls[n].task), calls[n].time);
  }

  /** What a call forgets of the other tasks: nothing while a thousand of them or fewer are known, and else exactly
      those not admitted a call within the last two minutes. */
  lemma StaleTasksGo(m: Timestamps, task: string, now: real, limit: int, other: string)
    requires other != task
    ensures var m' := Check(m, task, now, limit).0;
      && (other in m' <==>
            other in m && (|m| > 1000 ==> m[other] != [] && m[other][|m[other]|-1] >= now - 120.0))
      && (other in m' ==> m'[other] == m[other])
  {
  }
}
