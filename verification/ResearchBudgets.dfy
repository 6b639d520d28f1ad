/** What a run of the research loop spends: when each budget is kept, how far it can be overshot, and when a
    cycle that is left alone completes. */
module ResearchBudgets {
  import opened ResearchBridge
  import opened ResearchLoop

  // ---------------------------------------------------------------- what the next tick spends

  /** How many of the first `n` candidates are not evaluated yet. */
  function Unevaluated(candidates: seq<Candidate>, n: nat): nat
    requires n <= |candidates|
  {
    if n == 0 then 0 else Unevaluated(candidates, n - 1) + if candidates[n-1].status == Generated then 1 else 0
  }

  /** How many of the listed candidates are not evaluated yet. */
  function Open(candidates: seq<Candidate>): nat {
    Unevaluated(candidates, Listed(candidates))
  }

  /** A failed search for significant discoveries costs a trial. */
  function TrialsDue(c: Cycle): nat {
    if c.status == Researching && !Exhausted(c) && Significant(c.discoveries) == [] then 1 else 0
  }

  /** A synthesis costs one LLM call for each pattern among the significant discoveries. */
  function CallsDue(c: Cycle): nat {
    if c.status == FactorValidated && !Exhausted(c) then |PatternsOf(Significant(c.discoveries))| else 0
  }

  /** Once every listed candidate has its result, all those not evaluated yet are counted at once. */
  function BacktestsDue(c: Cycle): nat {
    if c.status == Backtesting && !Exhausted(c) && !SomePending(c.candidates) then Open(c.candidates) else 0
  }

  lemma {:induction false} EvaluatesAll(candidates: seq<Candidate>, n: nat)
    requires n <= |candidates| && forall k :: 0 <= k < n ==> candidates[k].sharpe.Some?
    ensures EvaluateTo(candidates, n).1 == Unevaluated(candidates, n)
    ensures forall k :: 0 <= k < n ==> EvaluateTo(candidates, n).0[k].status == Evaluated
  {
    if n > 0 {
      EvaluatesAll(candidates, n - 1);
    }
  }

  /** What one tick adds to each counter. */
  lemma TickSpends(c: Cycle)
    ensures var c' := Tick(c).0;
      && c'.trials == c.trials + TrialsDue(c)
      && c'.llmCalls == c.llmCalls + CallsDue(c)
      && c'.backtests == c.backtests + BacktestsDue(c)
  {
    if c.status == FactorValidated && !Exhausted(c) {
      SynthesisTick(c);
    }
    if c.status == Backtesting && !Exhausted(c) && !SomePending(c.candidates) {
      EvaluatesAll(c.candidates, Listed(c.candidates));
    }
  }

  // ---------------------------------------------------------------- how far a budget can be overshot

  lemma {:induction false} SameStatuses(a: seq<Candidate>, b: seq<Candidate>, n: nat)
    requires n <= |a| && n <= |b| && forall k :: 0 <= k < n ==> a[k].status == b[k].status
    ensures Unevaluated(a, n) == Unevaluated(b, n)
  {
    if n > 0 {
      SameStatuses(a, b, n - 1);
    }
  }

  lemma {:induction false} NoneOpen(candidates: seq<Candidate>, n: nat)
    requires n <= |candidates| && forall k :: 0 <= k < n ==> candidates[k].status == Evaluated
    ensures Unevaluated(candidates, n) == 0
  {
    if n > 0 {
      NoneOpen(candidates, n - 1);
    }
  }

  lemma {:induction false} OpenGrows(candidates: seq<Candidate>, m: nat, n: nat)
    requires m <= n <= |candidates|
    ensures Unevaluated(candidates, n) <= Unevaluated(candidates, m) + (n - m)
  {
    if m < n {
      OpenGrows(candidates, m, n - 1);
    }
  }

  lemma AddedOpen(candidates: seq<Candidate>, added: seq<Candidate>)
    ensures Open(candidates + added) <= Open(candidates) + |added|
  {
    SameStatuses(candidates + added, candidates, Listed(candidates));
    OpenGrows(candidates + added, Listed(candidates), Listed(candidates + added));
  }

  lemma EvaluationCloses(c: Cycle)
    requires !SomePending(c.candidates)
    ensures Open(EvaluateAll(c).candidates) == 0
  {
    var n := Listed(c.candidates);
    EvaluatesAll(c.candidates, n);
    NoneOpen(EvaluateAll(c).candidates, n);
  }

  /** Outside a round of backtests no listed candidate is open; a round has at most eight of them. */
  ghost predicate Tidy(c: Cycle) {
    Terminal(c.status) || Open(c.candidates) <= if c.status.Synthesizing? || c.status.Backtesting? then 8 else 0
  }

  ghost predicate WithinBudget(c: Cycle) {
    && c.trials <= c.budget.maxTrials
    && c.llmCalls <= c.budget.maxLlmCalls + 7
    && c.backtests <= c.budget.maxBacktests + 7
    && Tidy(c)
  }

  lemma TickTidies(c: Cycle)
    requires Tidy(c)
    ensures Tidy(Tick(c).0)
  {
    if c.status == FactorValidated && !Exhausted(c) {
      SynthesisTick(c);
      CandidatesPartitionDiscoveries(Significant(c.discoveries));
      AddedOpen(c.candidates, Synthesized(Significant(c.discoveries)));
    }
    if c.status == Backtesting && !SomePending(c.candidates) {
      EvaluationCloses(c);
    }
  }

  lemma AtMostEightDue(c: Cycle)
    ensures CallsDue(c) <= 8
    ensures Tidy(c) ==> BacktestsDue(c) <= 8
  {
    PatternsAreDistinct(Significant(c.discoveries));
  }

  lemma TickWithinBudget(c: Cycle)
    requires WithinBudget(c)
    ensures WithinBudget(Tick(c).0)
  {
    TickSpends(c);
    TickTidies(c);
    AtMostEightDue(c);
    TickKeepsBudget(c);
  }

  lemma TickKeepsBudget(c: Cycle)
    ensures Tick(c).0.budget == c.budget
  {
  }

  lemma {:induction false} EnvironmentTidies(c: Cycle, events: seq<Event>)
    ensures Tidy(c) ==> Tidy(ApplyAll(c, events))
  {
    if events != [] {
      var mid, e := ApplyAll(c, events[..|events|-1]), events[|events|-1];
      EnvironmentTidies(c, events[..|events|-1]);
      SameStatuses(mid.candidates, Apply(mid, e).candidates, Listed(mid.candidates));
    }
  }

  // ---------------------------------------------------------------- whole runs

  /** What one step of a run adds to the counters. */
  ghost predicate Spends(c: Cycle, events: seq<Event>, c': Cycle) {
    var before := ApplyAll(c, events);
    && before.budget == c'.budget == c.budget
    && before.llmCalls == c.llmCalls && before.backtests == c.backtests
    && c'.llmCalls == c.llmCalls + CallsDue(before)
    && c'.backtests == c.backtests + BacktestsDue(before)
    && (WithinBudget(c) ==> WithinBudget(c'))
  }

  ghost predicate Spending(step: Machine) {
    forall c, events :: Spends(c, events, step(c, events).0)
  }

  lemma StepsSpend()
    ensures Spending(Step)
  {
    forall c, events ensures Spends(c, events, Step(c, events).0) {
      var before := ApplyAll(c, events);
      EnvironmentKeeps(c, events);
      EnvironmentTidies(c, events);
      TickSpends(before);
      TickKeepsBudget(before);
      if WithinBudget(c) {
        TickWithinBudget(before);
      }
    }
  }

  lemma {:induction false} RunWithinBudget(step: Machine, c: Cycle, env: Environment, n: nat)
    requires Spending(step)
    ensures Run(step, c, env, n).budget == c.budget
    ensures WithinBudget(c) ==> WithinBudget(Run(step, c, env, n))
  {
    if n > 0 {
      RunWithinBudget(step, c, env, n - 1);
      assert Spends(Run(step, c, env, n - 1), env(n - 1), Run(step, c, env, n));
    }
  }

  /** Along every run trials never exceed their budget, and LLM calls and backtests exceed theirs by at most
      seven, because both are checked before a round that may spend eight. */
  lemma BudgetsHold(c: Cycle, env: Environment, n: nat)
    requires WithinBudget(c)
    ensures WithinBudget(After(c, env, n))
  {
    StepsSpend();
    RunWithinBudget(Step, c, env, n);
  }

  lemma NewCycleWithinBudget(budget: Budget, env: Environment, n: nat)
    requires budget.maxTrials >= 0 && budget.maxLlmCalls >= 0 && budget.maxBacktests >= 0
    ensures var c := After(NewCycle(budget), env, n);
      c.trials <= budget.maxTrials && c.llmCalls <= budget.maxLlmCalls + 7 && c.backtests <= budget.maxBacktests + 7
  {
    BudgetsHold(NewCycle(budget), env, n);
    StepsSpend();
    RunWithinBudget(Step, NewCycle(budget), env, n);
  }

  /** The tick about to be made leaves the calls, or the backtests, within their budget. */
  predicate CallsFit(c: Cycle) {
    c.llmCalls + CallsDue(c) <= c.budget.maxLlmCalls
  }

  predicate BacktestsFit(c: Cycle) {
    c.backtests + BacktestsDue(c) <= c.budget.maxBacktests
  }

  /** The cycle that the k-th tick of a run finds. */
  function Before(step: Machine, c: Cycle, env: Environment, k: nat): Cycle {
    ApplyAll(Run(step, c, env, k), env(k))
  }

  /** Each of the first `n` ticks of a run finds a cycle it fits. */
  ghost predicate AllFit(fits: Cycle -> bool, step: Machine, c: Cycle, env: Environment, n: nat) {
    forall k: nat :: k < n ==> fits(Before(step, c, env, k))
  }

  lemma AllFitNext(fits: Cycle -> bool, step: Machine, c: Cycle, env: Environment, n: nat)
    requires n > 0
    ensures AllFit(fits, step, c, env, n) <==> AllFit(fits, step, c, env, n - 1) && fits(Before(step, c, env, n - 1))
  {
  }

  predicate CallsWithin(c: Cycle) {
    c.llmCalls <= c.budget.maxLlmCalls
  }

  predicate BacktestsWithin(c: Cycle) {
    c.backtests <= c.budget.maxBacktests
  }

  /** A step ends within a budget exactly if it fits, and only if it began within it. */
  ghost predicate Keeps(fits: Cycle -> bool, within: Cycle -> bool, step: Machine) {
    && (forall c, events :: within(step(c, events).0) <==> fits(ApplyAll(c, events)))
    && (forall c, events :: within(step(c, events).0) ==> within(c))
  }

  lemma StepsKeep()
    ensures Keeps(CallsFit, CallsWithin, Step) && Keeps(BacktestsFit, BacktestsWithin, Step)
  {
    StepsSpend();
    forall c, events
      ensures CallsWithin(Step(c, events).0) <==> CallsFit(ApplyAll(c, events))
      ensures CallsWithin(Step(c, events).0) ==> CallsWithin(c)
      ensures BacktestsWithin(Step(c, events).0) <==> BacktestsFit(ApplyAll(c, events))
      ensures BacktestsWithin(Step(c, events).0) ==> BacktestsWithin(c)
    {
      SpendsKeeps(c, events, Step(c, events).0);
    }
  }

  lemma SpendsKeeps(c: Cycle, events: seq<Event>, c': Cycle)
    requires Spends(c, events, c')
    ensures CallsWithin(c') <==> CallsFit(ApplyAll(c, events))
    ensures CallsWithin(c') ==> CallsWithin(c)
    ensures BacktestsWithin(c') <==> BacktestsFit(ApplyAll(c, events))
    ensures BacktestsWithin(c') ==> BacktestsWithin(c)
  {
  }

  lemma {:induction false} RunKeeps(fits: Cycle -> bool, within: Cycle -> bool, step: Machine, c: Cycle,
        env: Environment, n: nat)
    requires Keeps(fits, within, step) && within(c)
    ensures within(Run(step, c, env, n)) <==> AllFit(fits, step, c, env, n)
  {
    if n > 0 {
      RunKeeps(fits, within, step, c, env, n - 1);
      AllFitNext(fits, step, c, env, n);
      var before := Run(step, c, env, n - 1);
      assert within(step(before, env(n - 1)).0) <==> fits(ApplyAll(before, env(n - 1)));
      assert within(step(before, env(n - 1)).0) ==> within(before);
    }
  }

  /** A run keeps its LLM budget exactly if no synthesis of it has more patterns than calls are left, and its
      backtest budget exactly if no round of it has more open candidates than backtests are left. */
  lemma BudgetsKeptExactlyWhen(c: Cycle, env: Environment, n: nat)
    requires c.llmCalls <= c.budget.maxLlmCalls && c.backtests <= c.budget.maxBacktests
    ensures After(c, env, n).llmCalls <= c.budget.maxLlmCalls <==> AllFit(CallsFit, Step, c, env, n)
    ensures After(c, env, n).backtests <= c.budget.maxBacktests <==> AllFit(BacktestsFit, Step, c, env, n)
  {
    StepsKeep();
    StepsSpend();
    RunWithinBudget(Step, c, env, n);
    RunKeeps(CallsFit, CallsWithin, Step, c, env, n);
    RunKeeps(BacktestsFit, BacktestsWithin, Step, c, env, n);
  }

  // ---------------------------------------------------------------- cycles left alone

  /** How many ticks a new cycle makes if nothing is ever discovered. */
  function TicksAlone(budget: Budget): nat {
    if budget.maxTrials <= 0 || budget.maxBacktests <= 0 || budget.maxLlmCalls <= 0 then 1 else budget.maxTrials + 2
  }

  lemma {:induction false} AloneFor(budget: Budget, n: nat)
    requires n < TicksAlone(budget)
    ensures After(NewCycle(budget), Quiet(), n)
         == if n == 0 then NewCycle(budget) else NewCycle(budget).(status := Researching, trials := n - 1)
  {
    if n == 0 {
      assert After(NewCycle(budget), Quiet(), 0) == NewCycle(budget);
    } else {
      AloneFor(budget, n - 1);
      assert After(NewCycle(budget), Quiet(), n) == Tick(After(NewCycle(budget), Quiet(), n - 1)).0;
    }
  }

  lemma AloneEnds(budget: Budget)
    ensures After(NewCycle(budget), Quiet(), TicksAlone(budget)).status == Archived
  {
    var n := TicksAlone(budget) - 1;
    AloneFor(budget, n);
    assert After(NewCycle(budget), Quiet(), n + 1) == Tick(After(NewCycle(budget), Quiet(), n)).0;
  }

  /** Running a new cycle to completion with nothing discovered completes it exactly if the limit is at least
      max_trials + 2 (or one, if some budget is nought). */
  lemma NewCycleCompletes(budget: Budget, limit: nat)
    ensures Terminal(RunUntil(Step, [], NewCycle(budget), limit).0.status) <==> limit >= TicksAlone(budget)
  {
    var (c', results) := RunUntil(Step, [], NewCycle(budget), limit);
    CompletionIsARun(NewCycle(budget), limit);
    if |results| < TicksAlone(budget) {
      AloneFor(budget, |results|);
    } else {
      AloneEnds(budget);
      TerminalAbsorbs(NewCycle(budget), Quiet(), TicksAlone(budget), |results|);
    }
  }

  /** The default of fifty iterations does not see a new cycle with the default budget to its end; 52 would. */
  lemma FiftyTicksDoNotSuffice(limit: nat)
    ensures DEFAULT_BUDGET == Budget(50, 20, 100)
    ensures Terminal(RunUntil(Step, [], NewCycle(DEFAULT_BUDGET), limit).0.status) <==> limit >= 52
  {
    NewCycleCompletes(DEFAULT_BUDGET, limit);
  }

  /** Nothing to synthesize from and nothing to wait for. */
  ghost predicate NothingPending(c: Cycle) {
    Inv(c) && Significant(c.discoveries) == [] && !SomePending(c.candidates)
  }

  lemma {:induction false} EvaluationKeepsSharpe(candidates: seq<Candidate>, n: nat)
    requires n <= |candidates|
    ensures forall k :: 0 <= k < n ==> EvaluateTo(candidates, n).0[k].sharpe == candidates[k].sharpe
  {
    if n > 0 {
      EvaluationKeepsSharpe(candidates, n - 1);
    }
  }

  lemma TickNeverWaits(c: Cycle)
    requires NothingPending(c)
    ensures NothingPending(Tick(c).0) && !Waiting(Tick(c).1)
  {
    EvaluationKeepsSharpe(c.candidates, Listed(c.candidates));
  }

  lemma {:induction false} QuietNeverWaits(c: Cycle, n: nat)
    requires NothingPending(c)
    ensures NothingPending(After(c, Quiet(), n)) && Waits(c, Quiet(), n) == 0
  {
    if n == 0 {
      assert After(c, Quiet(), 0) == c;
    } else {
      QuietNeverWaits(c, n - 1);
      var before := After(c, Quiet(), n - 1);
      TickNeverWaits(before);
      assert Step(before, Quiet()(n - 1)) == Tick(before);
    }
  }

  /** Any cycle with nothing to synthesize from and nothing to wait for is completed by as many iterations as
      its measure. */
  lemma NothingPendingCompletes(c: Cycle, limit: nat)
    requires NothingPending(c) && limit >= Measure(c)
    ensures Terminal(RunUntil(Step, [], c, limit).0.status)
  {
    QuietNeverWaits(c, limit);
    CompletionIsARun(c, limit);
  }
}
