/** The autonomous research loop: a cyclic state machine driven one tick at a time under a budget. */
module ResearchLoop {
  import opened Wrappers
  import opened ResearchBridge

  datatype Status =
    | OpportunityIdentified | Researching | FactorValidated | Synthesizing | Backtesting | Evaluating | ReResearch
    | Promoted | Archived | Canceled | Failed

  datatype Budget = Budget(maxTrials: int, maxBacktests: int, maxLlmCalls: int)

  const DEFAULT_BUDGET := Budget(50, 20, 100)

  /** The page size of the repository's plain listing. */
  const PAGE := 100

  /** The cycle record with the discoveries and candidates stored for it. `forced` counts how often the
      status was changed along an edge the transition table does not have. */
  datatype Cycle = Cycle(
    status: Status,
    budget: Budget,
    trials: int,
    backtests: int,
    llmCalls: int,
    discoveries: seq<Discovery>,
    candidates: seq<Candidate>,
    forced: nat)

  datatype Action = Transition(target: Status) | Wait

  datatype Taken = NothingTaken | BudgetExhausted | Waited | Transitioned

  datatype TickResult =
    | CycleNotFound
    | TickResult(previous: Status, current: Status, taken: Taken, shouldContinue: bool)

  predicate Terminal(s: Status) {
    s.Promoted? || s.Archived? || s.Canceled? || s.Failed?
  }

  predicate InTable(current: Status, target: Status) {
    match current
    case OpportunityIdentified => target == Researching
    case Researching => target == FactorValidated || target == Researching
    case FactorValidated => target == Synthesizing
    case Synthesizing => target == Backtesting || target == Archived
    case Backtesting => target == Evaluating
    case Evaluating => target == Promoted || target == Archived || target == ReResearch
    case ReResearch => target == Researching
    case _ => false
  }

  predicate OnTable(current: Status, target: Status) {
    (Terminal(target) && !Terminal(current)) || InTable(current, target) || target == current
  }

  predicate Exhausted(c: Cycle) {
    c.trials >= c.budget.maxTrials || c.backtests >= c.budget.maxBacktests || c.llmCalls >= c.budget.maxLlmCalls
  }

  function Significant(ds: seq<Discovery>): seq<Discovery> {
    if ds == [] then [] else Significant(ds[..|ds|-1]) + if ds[|ds|-1].significant then [ds[|ds|-1]] else []
  }

  /** How many candidates the plain listing returns. */
  function Listed(candidates: seq<Candidate>): nat {
    if |candidates| <= PAGE then |candidates| else PAGE
  }

  predicate SomeGenerated(candidates: seq<Candidate>) {
    exists k :: 0 <= k < |candidates| && candidates[k].status == Generated
  }

  predicate SomePending(candidates: seq<Candidate>) {
    exists k :: 0 <= k < Listed(candidates) && candidates[k].sharpe.None?
  }

  predicate SomeVerdict(candidates: seq<Candidate>, v: Verdict) {
    exists k :: 0 <= k < Listed(candidates) && candidates[k].status == Evaluated && candidates[k].verdict == Some(v)
  }

  // ---------------------------------------------------------------- one tick

  function Decide(c: Cycle): Action {
    match c.status
    case OpportunityIdentified => Transition(Researching)
    case Researching =>
      if Significant(c.discoveries) != [] then Transition(FactorValidated)
      else if c.trials < c.budget.maxTrials then Transition(Researching)
      else Transition(Archived)
    case FactorValidated => Transition(Synthesizing)
    case Synthesizing => if SomeGenerated(c.candidates) then Transition(Backtesting) else Transition(Archived)
    case Backtesting => if SomePending(c.candidates) then Wait else Transition(Evaluating)
    case Evaluating => Transition(Evaluating)
    case ReResearch => Transition(Researching)
    case _ => Wait
  }

  function MoveTo(c: Cycle, target: Status): Cycle {
    c.(status := target, forced := if OnTable(c.status, target) then c.forced else c.forced + 1)
  }

  predicate ReadyToEvaluate(c: Candidate) {
    c.sharpe.Some? && c.status == Generated
  }

  /** The candidates after the first `n` were evaluated where possible, and how many were. */
  function EvaluateTo(candidates: seq<Candidate>, n: nat): (r: (seq<Candidate>, nat))
    requires n <= |candidates|
    ensures |r.0| == n && r.1 <= n
  {
    if n == 0 then ([], 0)
    else
      var (done, count) := EvaluateTo(candidates, n - 1);
      if ReadyToEvaluate(candidates[n-1]) then (done + [EvaluateCandidate(candidates[n-1])], count + 1)
      else (done + [candidates[n-1]], count)
  }

  function EvaluateAll(c: Cycle): Cycle {
    var n := Listed(c.candidates);
    var (done, count) := EvaluateTo(c.candidates, n);
    c.(candidates := done + c.candidates[n..], backtests := c.backtests + count)
  }

  function Resolve(c: Cycle): Status {
    if SomeVerdict(c.candidates, Promote) then Promoted
    else if SomeVerdict(c.candidates, Borderline) then ReResearch
    else Archived
  }

  function Execute(c: Cycle, a: Action): Cycle {
    if a.Wait? then c
    else if c.status == Researching && a.target == Researching then c.(trials := c.trials + 1)
    else if c.status == FactorValidated && a.target == Synthesizing then
      var new_ := Synthesized(Significant(c.discoveries));
      MoveTo(c.(candidates := c.candidates + new_, llmCalls := c.llmCalls + |new_|), Synthesizing)
    else if c.status == Backtesting && a.target == Evaluating then MoveTo(EvaluateAll(c), Evaluating)
    else if c.status == Evaluating then MoveTo(c, Resolve(c))
    else MoveTo(c, a.target)
  }

  function Tick(c: Cycle): (r: (Cycle, TickResult))
    ensures r.1.TickResult?
  {
    if Terminal(c.status) then (c, TickResult(c.status, c.status, NothingTaken, false))
    else if Exhausted(c) then (MoveTo(c, Archived), TickResult(c.status, Archived, BudgetExhausted, false))
    else
      var a := Decide(c);
      var c' := Execute(c, a);
      (c', if a.Wait? then TickResult(c.status, c.status, Waited, true)
           else TickResult(c.status, c'.status, Transitioned, !Terminal(c'.status)))
  }

  // ---------------------------------------------------------------- the environment between ticks

  /** Discoveries and backtest results arrive, and a user may cancel; nothing stored is taken back. */
  datatype Event =
    | Discovered(discovery: Discovery)
    | BacktestDone(index: nat, sharpe: real, drawdown: Option<real>, trades: Option<int>)
    | CancelRequested

  function Apply(c: Cycle, e: Event): Cycle {
    match e
    case Discovered(d) => c.(discoveries := c.discoveries + [d])
    case BacktestDone(k, sharpe, drawdown, trades) =>
      if k < |c.candidates|
      then
        var done := c.candidates[k].(sharpe := Some(sharpe), drawdown := drawdown, trades := trades);
        c.(candidates := c.candidates[k := done])
      else c
    case CancelRequested => if Terminal(c.status) then c else c.(status := Canceled)
  }

  function ApplyAll(c: Cycle, events: seq<Event>): Cycle {
    if events == [] then c else Apply(ApplyAll(c, events[..|events|-1]), events[|events|-1])
  }

  type Environment = nat -> seq<Event>

  /** Nothing happens between the ticks. */
  function Quiet(): Environment {
    k => []
  }

  /** What happens between two ticks, and then the tick. */
  function Step(c: Cycle, events: seq<Event>): (Cycle, TickResult) {
    Tick(ApplyAll(c, events))
  }

  type Machine = (Cycle, seq<Event>) -> (Cycle, TickResult)

  function Run(step: Machine, c: Cycle, env: Environment, n: nat): Cycle {
    if n == 0 then c else step(Run(step, c, env, n - 1), env(n - 1)).0
  }

  /** How many of the first `n` steps of a run waited. */
  function WaitsOf(step: Machine, c: Cycle, env: Environment, n: nat): nat {
    if n == 0 then 0
    else WaitsOf(step, c, env, n - 1) + if Waiting(step(Run(step, c, env, n - 1), env(n - 1)).1) then 1 else 0
  }

  predicate Waiting(r: TickResult) {
    r.TickResult? && r.taken == Waited
  }

  /** The cycle after `n` ticks, each preceded by what the environment does then. */
  function After(c: Cycle, env: Environment, n: nat): Cycle {
    Run(Step, c, env, n)
  }

  /** How many of the first `n` ticks found a candidate waiting for its backtest. */
  function Waits(c: Cycle, env: Environment, n: nat): nat {
    WaitsOf(Step, c, env, n)
  }

  // ---------------------------------------------------------------- termination measure

  function Phase(s: Status): nat {
    match s
    case Synthesizing => 6
    case Backtesting => 5
    case Evaluating => 4
    case ReResearch => 3
    case OpportunityIdentified => 3
    case Researching => 2
    case FactorValidated => 1
    case _ => 0
  }

  function AtLeastZero(n: int): nat {
    if n < 0 then 0 else n
  }

  /** LLM calls left weigh a whole round; trials left and the phase count single ticks. */
  function Measure(c: Cycle): nat {
    if Terminal(c.status) then 0
    else
      var calls, trials := c.budget.maxLlmCalls - c.llmCalls, c.budget.maxTrials - c.trials;
      1 + 6 * AtLeastZero(calls) + AtLeastZero(trials) + Phase(c.status)
  }

  /** A cycle whose factors are validated has a significant discovery to synthesize from. */
  ghost predicate Inv(c: Cycle) {
    c.status == FactorValidated ==> Significant(c.discoveries) != []
  }

  lemma SignificantGrows(ds: seq<Discovery>, d: Discovery)
    ensures Significant(ds) != [] ==> Significant(ds + [d]) != []
  {
    assert (ds + [d])[..|ds|] == ds;
  }

  lemma {:induction false} EnvironmentKeeps(c: Cycle, events: seq<Event>)
    ensures var c' := ApplyAll(c, events);
      && (Inv(c) ==> Inv(c')) && Measure(c') <= Measure(c)
      && c'.forced == c.forced && c'.trials == c.trials && c'.llmCalls == c.llmCalls && c'.backtests == c.backtests
      && c'.budget == c.budget
      && (c'.status == c.status || (c'.status == Canceled && !Terminal(c.status)))
  {
    if events != [] {
      EnvironmentKeeps(c, events[..|events|-1]);
      var mid, e := ApplyAll(c, events[..|events|-1]), events[|events|-1];
      if e.Discovered? {
        SignificantGrows(mid.discoveries, e.discovery);
      }
    }
  }

  lemma SynthesisTick(c: Cycle)
    requires c.status == FactorValidated && !Exhausted(c)
    ensures var new_ := Synthesized(Significant(c.discoveries));
      Tick(c).0 == c.(status := Synthesizing, candidates := c.candidates + new_, llmCalls := c.llmCalls + |new_|)
  {
    assert Decide(c) == Transition(Synthesizing);
  }

  /** Synthesis from at least one significant discovery spends at least one and at most eight LLM calls,
      and every significant discovery lands in exactly one of the candidates it adds. */
  lemma SynthesisSpends(c: Cycle)
    requires c.status == FactorValidated && !Exhausted(c) && Significant(c.discoveries) != []
    ensures var c' := Tick(c).0;
      && c'.status == Synthesizing && c.llmCalls + 1 <= c'.llmCalls <= c.llmCalls + 8
      && |c'.candidates| >= |c.candidates| && c'.candidates[..|c.candidates|] == c.candidates
      && multiset(AllDiscoveries(c'.candidates[|c.candidates|..])) == multiset(Significant(c.discoveries))
  {
    var ds := Significant(c.discoveries);
    SynthesisTick(c);
    CandidatesPartitionDiscoveries(ds);
    assert (c.candidates + Synthesized(ds))[|c.candidates|..] == Synthesized(ds);
  }

  /** A tick never leaves the transition table and never changes a terminal cycle; it waits exactly while
      some listed candidate has no backtest result yet. */
  lemma TickStaysOnTable(c: Cycle)
    requires Inv(c)
    ensures var (c', r) := Tick(c);
      && Inv(c') && c'.forced == c.forced && c'.budget == c.budget
      && (Terminal(c.status) ==> c' == c)
      && (r.taken == Waited ==> c' == c)
      && (r.taken == Waited <==> c.status == Backtesting && !Exhausted(c) && SomePending(c.candidates))
      && (r.shouldContinue <==> !Terminal(c'.status))
  {
  }

  /** Every tick on a live cycle either waits for a backtest or brings the measure down. */
  lemma TickProgress(c: Cycle)
    requires Inv(c)
    ensures var (c', r) := Tick(c); !Terminal(c.status) && r.taken != Waited ==> Measure(c') < Measure(c)
  {
    if c.status == FactorValidated && !Exhausted(c) {
      SynthesisSpends(c);
    }
  }

  // ---------------------------------------------------------------- whole runs

  /** What one step of a run may do to a cycle. */
  ghost predicate StepBounds(c: Cycle, c': Cycle, r: TickResult) {
    && (Inv(c) ==> Inv(c')) && c'.budget == c.budget
    && (Inv(c) ==> c'.forced == c.forced)
    && (Inv(c) ==> r.TickResult? && (r.shouldContinue <==> !Terminal(c'.status)))
    && (Terminal(c.status) ==> c'.status == c.status)
    && (Inv(c) ==> Measure(c') <= Measure(c))
    && (Inv(c) && !Terminal(c'.status) && !Waiting(r) ==> Measure(c') < Measure(c))
  }

  lemma StepIsBounded(c: Cycle, events: seq<Event>)
    ensures StepBounds(c, Step(c, events).0, Step(c, events).1)
  {
    EnvironmentKeeps(c, events);
    var before := ApplyAll(c, events);
    if Inv(c) {
      TickStaysOnTable(before);
      TickProgress(before);
    }
  }

  ghost predicate Bounded(step: Machine) {
    forall c, events :: StepBounds(c, step(c, events).0, step(c, events).1)
  }

  lemma StepsAreBounded()
    ensures Bounded(Step)
  {
    forall c, events ensures StepBounds(c, Step(c, events).0, Step(c, events).1) {
      StepIsBounded(c, events);
    }
  }

  lemma {:induction false} RunIsBounded(step: Machine, c: Cycle, env: Environment, n: nat)
    requires Bounded(step)
    ensures var c' := Run(step, c, env, n);
      && (Inv(c) ==> Inv(c') && c'.forced == c.forced)
      && (Inv(c) && !Terminal(c'.status) ==> n + Measure(c') <= Measure(c) + WaitsOf(step, c, env, n))
  {
    if n > 0 {
      RunIsBounded(step, c, env, n - 1);
    }
  }

  lemma {:induction false} TerminalStays(step: Machine, c: Cycle, env: Environment, n: nat, m: nat)
    requires Bounded(step) && n <= m && Terminal(Run(step, c, env, n).status)
    ensures Run(step, c, env, m).status == Run(step, c, env, n).status
    decreases m
  {
    if n < m {
      TerminalStays(step, c, env, n, m - 1);
    }
  }

  /** However discoveries and results arrive, once as many ticks have not waited as the initial measure
      says, the cycle is in a terminal state. */
  lemma EveryRunEnds(c: Cycle, env: Environment, n: nat)
    requires Inv(c) && n >= Measure(c) + Waits(c, env, n)
    ensures Terminal(After(c, env, n).status)
  {
    StepsAreBounded();
    RunIsBounded(Step, c, env, n);
  }

  /** Along every run the forcing branch is never taken. */
  lemma NeverForced(c: Cycle, env: Environment, n: nat)
    requires Inv(c)
    ensures After(c, env, n).forced == c.forced
  {
    StepsAreBounded();
    RunIsBounded(Step, c, env, n);
  }

  /** A terminal state absorbs the rest of the run. */
  lemma TerminalAbsorbs(c: Cycle, env: Environment, n: nat, m: nat)
    requires n <= m && Terminal(After(c, env, n).status)
    ensures After(c, env, m).status == After(c, env, n).status
  {
    StepsAreBounded();
    TerminalStays(Step, c, env, n, m);
  }

  function NewCycle(budget: Budget): Cycle {
    Cycle(OpportunityIdentified, budget, 0, 0, 0, [], [], 0)
  }

  /** So from a new cycle it takes at most 6 * max_llm_calls + max_trials + 4 ticks that do not wait. */
  lemma EveryNewCycleEnds(budget: Budget, env: Environment, n: nat)
    requires n >= 6 * AtLeastZero(budget.maxLlmCalls) + AtLeastZero(budget.maxTrials) + 4
        + Waits(NewCycle(budget), env, n)
    ensures Terminal(After(NewCycle(budget), env, n).status)
  {
    assert Measure(NewCycle(budget)) == 6 * AtLeastZero(budget.maxLlmCalls) + AtLeastZero(budget.maxTrials) + 4;
    EveryRunEnds(NewCycle(budget), env, n);
  }

  // ---------------------------------------------------------------- running to completion

  /** At most `limit` more steps without outside events, stopping at the first that says not to continue;
      `results` were returned by the steps before. */
  function RunUntil(step: Machine, results: seq<TickResult>, c: Cycle, limit: int): (r: (Cycle, seq<TickResult>))
    decreases limit
  {
    if limit <= 0 then (c, results)
    else
      var (c', r) := step(c, []);
      if r.TickResult? && r.shouldContinue then RunUntil(step, results + [r], c', limit - 1) else (c', results + [r])
  }

  /** One step on the way. */
  lemma RunUntilNext(step: Machine, results: seq<TickResult>, c: Cycle, limit: int, c': Cycle, r: TickResult)
    requires limit > 0 && (c', r) == step(c, [])
    ensures RunUntil(step, results, c, limit)
         == if r.TickResult? && r.shouldContinue then RunUntil(step, results + [r], c', limit - 1)
            else (c', results + [r])
  {
  }

  lemma {:induction false} RunFromNext(step: Machine, c: Cycle, env: Environment, n: nat)
    requires forall k :: env(k) == []
    ensures Run(step, c, env, n + 1) == Run(step, step(c, []).0, env, n)
  {
    if n == 0 {
      assert Run(step, c, env, 0) == c;
    } else {
      RunFromNext(step, c, env, n - 1);
    }
  }

  lemma {:induction false} RunUntilIsRun(step: Machine, results: seq<TickResult>, c: Cycle, limit: nat,
        env: Environment)
    requires Bounded(step) && Inv(c) && forall k :: env(k) == []
    ensures var (c', all) := RunUntil(step, results, c, limit);
      && |results| <= |all| <= |results| + limit
      && c' == Run(step, c, env, |all| - |results|)
      && (|all| < |results| + limit ==> Terminal(c'.status))
    decreases limit
  {
    if limit > 0 {
      var (c', r) := step(c, []);
      if r.shouldContinue {
        RunUntilIsRun(step, results + [r], c', limit - 1, env);
        RunFromNext(step, c, env, |RunUntil(step, results + [r], c', limit - 1).1| - |results| - 1);
      } else {
        assert Run(step, c, env, 0) == c;
      }
    }
  }

  lemma CompletionEnds(step: Machine, c: Cycle, limit: nat, env: Environment)
    requires Bounded(step) && Inv(c) && forall k :: env(k) == []
    ensures var (c', results) := RunUntil(step, [], c, limit);
      && |results| <= limit && c' == Run(step, c, env, |results|)
      && (|results| < limit || limit >= Measure(c) + WaitsOf(step, c, env, limit) ==> Terminal(c'.status))
  {
    RunUntilIsRun(step, [], c, limit, env);
    RunIsBounded(step, c, env, limit);
  }

  /** Running to completion is a run of ticks with one result each; it stops short of its limit only in a
      terminal state, and ends in one if the limit covers the measure and nothing waits. */
  lemma CompletionIsARun(c: Cycle, limit: nat)
    requires Inv(c)
    ensures var (c', results) := RunUntil(Step, [], c, limit);
      && |results| <= limit && c' == After(c, Quiet(), |results|)
      && (|results| < limit || limit >= Measure(c) + Waits(c, Quiet(), limit) ==> Terminal(c'.status))
  {
    StepsAreBounded();
    CompletionEnds(Step, c, limit, Quiet());
  }

  // ---------------------------------------------------------------- the service

  /** The stored cycle record, updated in place. */
  class ResearchCycle {
    const budget: Budget
    var status: Status
    var trials: int
    var backtests: int
    var llmCalls: int
    var discoveries: seq<Discovery>
    var candidates: seq<Candidate>
    var forced: nat

    constructor (budget: Budget)
      ensures View() == NewCycle(budget)
    {
      this.budget := budget;
      status, trials, backtests, llmCalls := OpportunityIdentified, 0, 0, 0;
      discoveries, candidates, forced := [], [], 0;
    }

    ghost function View(): Cycle
      reads this
    {
      Cycle(status, budget, trials, backtests, llmCalls, discoveries, candidates, forced)
    }
  }

  class AutonomousResearchLoop {
    var cycles: map<string, ResearchCycle>

    constructor ()
      ensures cycles == map[]
    {
      cycles := map[];
    }

    method DecideAction(cycle: ResearchCycle) returns (a: Action)
      ensures a == Decide(cycle.View())
    {
      match cycle.status {
        case OpportunityIdentified => a := Transition(Researching);
        case Researching =>
          if Significant(cycle.discoveries) != [] {
            a := Transition(FactorValidated);
          } else if cycle.trials < cycle.budget.maxTrials {
            a := Transition(Researching);
          } else {
            a := Transition(Archived);
          }
        case FactorValidated => a := Transition(Synthesizing);
        case Synthesizing =>
          a := if SomeGenerated(cycle.candidates) then Transition(Backtesting) else Transition(Archived);
        case Backtesting => a := if SomePending(cycle.candidates) then Wait else Transition(Evaluating);
        case Evaluating => a := Transition(Evaluating);
        case ReResearch => a := Transition(Researching);
        case _ => a := Wait;
      }
    }

    method TransitionStatus(cycle: ResearchCycle, target: Status)
      modifies cycle
      ensures cycle.View() == MoveTo(old(cycle.View()), target)
    {
      if Terminal(target) && !Terminal(cycle.status) {
      } else if !InTable(cycle.status, target) && target != cycle.status {
        cycle.forced := cycle.forced + 1;
      }
      cycle.status := target;
    }

    method EvaluateAllCandidates(cycle: ResearchCycle)
      modifies cycle`candidates, cycle`backtests
      ensures cycle.View() == EvaluateAll(old(cycle.View()))
    {
      ghost var before := cycle.candidates;
      var listed := Listed(cycle.candidates);
      for n := 0 to listed
        invariant |cycle.candidates| == |before|
        invariant forall k :: n <= k < |before| ==> cycle.candidates[k] == before[k]
        invariant cycle.candidates[..n] == EvaluateTo(before, n).0
        invariant cycle.backtests == old(cycle.backtests) + EvaluateTo(before, n).1
      {
        if ReadyToEvaluate(cycle.candidates[n]) {
          cycle.candidates := cycle.candidates[n := EvaluateCandidate(cycle.candidates[n])];
          cycle.backtests := cycle.backtests + 1;
        }
      }
      assert cycle.candidates == EvaluateTo(before, listed).0 + before[listed..];
    }

    method ExecuteAction(cycle: ResearchCycle, a: Action) returns (r: TickResult)
      requires a == Decide(cycle.View())
      modifies cycle
      ensures cycle.View() == Execute(old(cycle.View()), a)
      ensures r == if a.Wait? then TickResult(old(cycle.status), old(cycle.status), Waited, true)
                   else TickResult(old(cycle.status), cycle.status, Transitioned, !Terminal(cycle.status))
    {
      var previous := cycle.status;
      if a.Wait? {
        return TickResult(previous, previous, Waited, true);
      }
      if previous == Researching && a.target == Researching {
        cycle.trials := cycle.trials + 1;
      } else if previous == FactorValidated && a.target == Synthesizing {
        var added := SynthesizeCandidates(Significant(cycle.discoveries));
        cycle.candidates := cycle.candidates + added;
        cycle.llmCalls := cycle.llmCalls + |added|;
        TransitionStatus(cycle, Synthesizing);
      } else if previous == Backtesting && a.target == Evaluating {
        EvaluateAllCandidates(cycle);
        TransitionStatus(cycle, Evaluating);
      } else if previous == Evaluating {
        var outcome := ResolveEvaluation(cycle);
        TransitionStatus(cycle, outcome);
      } else {
        TransitionStatus(cycle, a.target);
      }
      r := TickResult(previous, cycle.status, Transitioned, !Terminal(cycle.status));
    }

    method ResolveEvaluation(cycle: ResearchCycle) returns (outcome: Status)
      ensures outcome == Resolve(cycle.View())
    {
      if SomeVerdict(cycle.candidates, Promote) {
        return Promoted;
      }
      if SomeVerdict(cycle.candidates, Borderline) {
        return ReResearch;
      }
      return Archived;
    }

    method TickRecord(cycle: ResearchCycle) returns (r: TickResult)
      modifies cycle
      ensures (cycle.View(), r) == Tick(old(cycle.View()))
    {
      var previous := cycle.status;
      if Terminal(previous) {
        return TickResult(previous, previous, NothingTaken, false);
      }
      if || cycle.trials >= cycle.budget.maxTrials
         || cycle.backtests >= cycle.budget.maxBacktests
         || cycle.llmCalls >= cycle.budget.maxLlmCalls
      {
        TransitionStatus(cycle, Archived);
        return TickResult(previous, Archived, BudgetExhausted, false);
      }
      var a := DecideAction(cycle);
      r := ExecuteAction(cycle, a);
    }

    /** One tick of a stored cycle. */
    method TickCycle(id: string) returns (r: TickResult)
      modifies if id in cycles then {cycles[id]} else {}
      ensures id !in cycles ==> r == CycleNotFound
      ensures id in cycles ==> (cycles[id].View(), r) == Step(old(cycles[id].View()), [])
    {
      if id !in cycles {
        return CycleNotFound;
      }
      r := TickRecord(cycles[id]);
    }

    /** Ticks a stored cycle until a tick says to stop or the iterations are used up. */
    method RunToCompletion(id: string, maxIterations: int) returns (results: seq<TickResult>)
      modifies if id in cycles then {cycles[id]} else {}
      ensures id !in cycles ==> results == if maxIterations > 0 then [CycleNotFound] else []
      ensures id in cycles ==> (cycles[id].View(), results) == RunUntil(Step, [], old(cycles[id].View()), maxIterations)
    {
      results := [];
      var n := 0;
      while n < maxIterations
        invariant 0 <= n
        invariant id !in cycles ==> n == 0 && results == []
        invariant id in cycles ==>
          RunUntil(Step, results, cycles[id].View(), maxIterations - n)
          == RunUntil(Step, [], old(cycles[id].View()), maxIterations)
      {
        ghost var before := if id in cycles then cycles[id].View() else NewCycle(DEFAULT_BUDGET);
        var r := TickCycle(id);
        if id in cycles {
          RunUntilNext(Step, results, before, maxIterations - n, cycles[id].View(), r);
        }
        results := results + [r];
        if r.CycleNotFound? || !r.shouldContinue {
          return;
        }
        n := n + 1;
      }
    }
  }
}
