/** How a cycle of the research loop moves on, and that it is promoted on the numbers of its candidates. */
module ResearchVerdicts {
  import opened Wrappers
  import opened ResearchBridge
  import opened ResearchLoop
  import opened ResearchBudgets

  // ---------------------------------------------------------------- the table of states

  lemma {:induction false} SignificantExists(ds: seq<Discovery>)
    ensures Significant(ds) != [] <==> exists k :: 0 <= k < |ds| && ds[k].significant
  {
    if ds != [] {
      var front := ds[..|ds|-1];
      SignificantExists(front);
      if Significant(front) != [] {
        var k :| 0 <= k < |front| && front[k].significant;
        assert ds[k].significant;
      }
      if k :| 0 <= k < |ds| && ds[k].significant {
        assert k < |front| ==> front[k].significant;
      }
    }
  }

  /** Where a tick takes a cycle; which of the three ways it leaves the evaluation is said further down. */
  lemma NextStatus(c: Cycle)
    ensures var next, b := Tick(c).0.status, c.budget;
      var spent := c.trials >= b.maxTrials || c.backtests >= b.maxBacktests || c.llmCalls >= b.maxLlmCalls;
      match c.status
      case Promoted => next == Promoted
      case Archived => next == Archived
      case Canceled => next == Canceled
      case Failed => next == Failed
      case OpportunityIdentified => next == if spent then Archived else Researching
      case Researching =>
        next == if spent then Archived
                else if exists k :: 0 <= k < |c.discoveries| && c.discoveries[k].significant then FactorValidated
                else Researching
      case FactorValidated => next == if spent then Archived else Synthesizing
      case Synthesizing =>
        next == if !spent && exists k :: 0 <= k < |c.candidates| && c.candidates[k].status == Generated
                then Backtesting else Archived
      case Backtesting =>
        next == if spent then Archived
                else if exists k :: 0 <= k < |c.candidates| && k < 100 && c.candidates[k].sharpe.None? then Backtesting
                else Evaluating
      case ReResearch => next == if spent then Archived else Researching
      case Evaluating =>
        if spent then next == Archived else next == Promoted || next == ReResearch || next == Archived
  {
    SignificantExists(c.discoveries);
    if c.status == Backtesting {
      PendingMeans(c);
    }
  }

  /** The edges of the transition table. */
  lemma TableIs(current: Status, target: Status)
    ensures InTable(current, target) <==> (current, target) in {
      (OpportunityIdentified, Researching), (Researching, FactorValidated), (Researching, Researching),
      (FactorValidated, Synthesizing), (Synthesizing, Backtesting), (Synthesizing, Archived), (Backtesting, Evaluating),
      (Evaluating, Promoted), (Evaluating, Archived), (Evaluating, ReResearch), (ReResearch, Researching)}
  {
  }

  lemma PendingMeans(c: Cycle)
    ensures SomePending(c.candidates) <==>
      exists k :: 0 <= k < |c.candidates| && k < 100 && c.candidates[k].sharpe.None?
  {
  }

  // ---------------------------------------------------------------- keywords

  predicate StandsAt(s: string, keyword: string, k: int) {
    0 <= k && k + |keyword| <= |s| && s[k..k+|keyword|] == keyword
  }

  lemma {:induction false} ContainsMeans(s: string, keyword: string)
    ensures Contains(s, keyword) <==> exists k :: StandsAt(s, keyword, k)
  {
    if keyword <= s {
      assert StandsAt(s, keyword, 0);
    } else if s != "" {
      ContainsMeans(s[1..], keyword);
      if k :| StandsAt(s, keyword, k) {
        StandsFurther(s, keyword, k - 1);
      }
      if k :| StandsAt(s[1..], keyword, k) {
        StandsFurther(s, keyword, k);
      }
    }
  }

  lemma StandsFurther(s: string, keyword: string, k: int)
    requires s != "" && !(keyword <= s)
    ensures StandsAt(s[1..], keyword, k) <==> StandsAt(s, keyword, k + 1)
  {
    var n := |keyword|;
    if 0 <= k && k + n <= |s| - 1 {
      SliceOfTail(s, k, n);
    } else if k == -1 && n <= |s| {
      assert s[0..n] == s[..n];
    }
  }

  lemma SliceOfTail(s: string, k: nat, n: nat)
    requires k + 1 + n <= |s|
    ensures s[1..][k..k+n] == s[k+1..k+1+n]
  {
  }

  /** Letters are lowered one by one, twenty-six of them, and nothing else is. */
  lemma LowerMeans(s: string, k: nat)
    requires k < |s|
    ensures |Lower(s)| == |s|
    ensures 'A' <= s[k] <= 'Z' ==> Lower(s)[k] as int == s[k] as int + 32
    ensures !('A' <= s[k] <= 'Z') ==> Lower(s)[k] == s[k]
  {
  }

  /** Words joined by a space contain what neither of them contains only across the space. */
  lemma JoinedContains(a: string, b: string, keyword: string)
    requires ' ' !in keyword && keyword != ""
    ensures Contains(a + " " + b, keyword) <==> Contains(a, keyword) || Contains(b, keyword)
  {
    var s, n := a + " " + b, |keyword|;
    ContainsMeans(a, keyword);
    ContainsMeans(b, keyword);
    ContainsMeans(s, keyword);
    if k :| StandsAt(a, keyword, k) {
      assert s[k..k+n] == a[k..k+n];
      assert StandsAt(s, keyword, k);
    }
    if k :| StandsAt(b, keyword, k) {
      var j := |a| + 1 + k;
      assert s[j..j+n] == b[k..k+n];
      assert StandsAt(s, keyword, j);
    }
    if k :| StandsAt(s, keyword, k) {
      StandsOnOneSide(a, b, keyword, k);
    }
  }

  /** A word without a space does not stand across one. */
  lemma NotAcross(s: string, keyword: string, k: int, at: nat)
    requires StandsAt(s, keyword, k) && ' ' !in keyword && at < |s| && s[at] == ' '
    ensures at < k || k + |keyword| <= at
  {
    assert forall m :: k <= m < k + |keyword| ==> s[m] == keyword[m-k];
    assert forall j :: 0 <= j < |keyword| ==> keyword[j] != ' ';
  }

  lemma StandsOnOneSide(a: string, b: string, keyword: string, k: int)
    requires ' ' !in keyword && keyword != "" && StandsAt(a + " " + b, keyword, k)
    ensures StandsAt(a, keyword, k) || StandsAt(b, keyword, k - |a| - 1)
  {
    var s, n := a + " " + b, |keyword|;
    NotAcross(s, keyword, k, |a|);
    if k + n <= |a| {
      assert s[k..k+n] == a[k..k+n];
    } else {
      var j := k - |a| - 1;
      assert s[k..k+n] == b[j..j+n];
    }
  }

  /** The joined names contain a word without a space exactly if one of them does, whatever their case. */
  lemma {:induction false} SomeNameContains(names: seq<string>, keyword: string)
    requires ' ' !in keyword && keyword != ""
    ensures Contains(JoinLower(names), keyword) <==>
      exists k :: 0 <= k < |names| && Contains(Lower(names[k]), keyword)
  {
    if |names| == 1 {
      assert JoinLower(names) == Lower(names[0]);
    } else if names != [] {
      var front := names[..|names|-1];
      SomeNameContains(front, keyword);
      JoinedContains(JoinLower(front), Lower(names[|names|-1]), keyword);
      assert forall k :: 0 <= k < |front| ==> front[k] == names[k];
    }
  }

  /** Some factor name has the word in it. */
  ghost predicate Named(names: seq<string>, keyword: string) {
    exists k :: 0 <= k < |names| && Contains(Lower(names[k]), keyword)
  }

  /** Which pattern a discovery falls under, by the words its factor names contain. */
  lemma PatternByWords(names: seq<string>)
    ensures Classify(names) ==
      if Named(names, "trend") then Trend
      else if Named(names, "momentum") then Momentum
      else if Named(names, "mean_rev") then MeanReversion
      else if Named(names, "overbought") || Named(names, "oversold") then OverboughtOversold
      else if Named(names, "volatility") || Named(names, "atr") then Volatility
      else if Named(names, "breakout") then Breakout
      else if Named(names, "volume") then Volume
      else if Named(names, "sentiment") then Sentiment
      else Trend
  {
    var s := JoinLower(names);
    Unrolled(s, 0);
    Unrolled(s, 5);
    forall n | 0 <= n < |KEYWORDS| ensures Contains(s, KEYWORDS[n].0) <==> Named(names, KEYWORDS[n].0) {
      SomeNameContains(names, KEYWORDS[n].0);
    }
    assert KEYWORDS[0..] == KEYWORDS;
  }

  lemma Unrolled(s: string, n: nat)
    requires n == 0 || n == 5
    ensures FirstKeyword(s, KEYWORDS[n..]) ==
      if Contains(s, KEYWORDS[n].0) then KEYWORDS[n].1
      else if Contains(s, KEYWORDS[n+1].0) then KEYWORDS[n+1].1
      else if Contains(s, KEYWORDS[n+2].0) then KEYWORDS[n+2].1
      else if Contains(s, KEYWORDS[n+3].0) then KEYWORDS[n+3].1
      else if Contains(s, KEYWORDS[n+4].0) then KEYWORDS[n+4].1
      else FirstKeyword(s, KEYWORDS[n+5..])
  {
    assert KEYWORDS[n..][1..] == KEYWORDS[n+1..];
    assert KEYWORDS[n+1..][1..] == KEYWORDS[n+2..];
    assert KEYWORDS[n+2..][1..] == KEYWORDS[n+3..];
    assert KEYWORDS[n+3..][1..] == KEYWORDS[n+4..];
    assert KEYWORDS[n+4..][1..] == KEYWORDS[n+5..];
    FirstOf(s, n);
    FirstOf(s, n + 1);
    FirstOf(s, n + 2);
    FirstOf(s, n + 3);
    FirstOf(s, n + 4);
  }

  lemma FirstOf(s: string, n: nat)
    requires n < |KEYWORDS|
    ensures FirstKeyword(s, KEYWORDS[n..])
         == if Contains(s, KEYWORDS[n].0) then KEYWORDS[n].1 else FirstKeyword(s, KEYWORDS[n..][1..])
  {
  }

  // ---------------------------------------------------------------- verdicts

  predicate Promotable(n: Numbers) {
    && n.sharpe.Some? && n.sharpe.value >= 0.8
    && n.drawdown.Some? && n.drawdown.value <= 0.1
    && n.trades.Some? && n.trades.value >= 30
  }

  predicate WorthAnotherRound(n: Numbers) {
    n.sharpe.Some? && n.sharpe.value >= 0.4
  }

  ghost predicate JudgedRight(c: Candidate) {
    match c.judgedOn
    case None => c.status == Generated
    case Some(n) =>
      c.status == Evaluated
      && c.verdict == Some(if Promotable(n) then Promote else if WorthAnotherRound(n) then Borderline else Reject)
  }

  /** A candidate is judged by a tick that finds it listed, not yet judged, and every listed candidate with its
      result: then on the numbers stored at that moment. No other tick touches a candidate there is. */
  lemma JudgedOnItsNumbers(c: Cycle, k: nat)
    requires k < |c.candidates|
    ensures var a, c' := c.candidates[k], Tick(c).0;
      var judged := c.status == Backtesting && !Exhausted(c) && !SomePending(c.candidates) && k < 100
        && a.status == Generated;
      && k < |c'.candidates|
      && (!judged ==> c'.candidates[k] == a)
      && (judged ==>
            && c'.candidates[k].judgedOn == Some(Numbers(a.sharpe, a.drawdown, a.trades))
            && JudgedRight(c'.candidates[k]))
  {
    if c.status == FactorValidated && !Exhausted(c) {
      SynthesisTick(c);
    }
    if c.status == Backtesting && !Exhausted(c) && !SomePending(c.candidates) {
      EvaluatedAt(c.candidates, Listed(c.candidates), k);
    }
  }

  function Reviewed(c: Candidate): Candidate {
    if ReadyToEvaluate(c) then EvaluateCandidate(c) else c
  }

  lemma {:induction false} EvaluatedAt(candidates: seq<Candidate>, n: nat, k: nat)
    requires n <= |candidates|
    ensures k < n ==> EvaluateTo(candidates, n).0[k] == Reviewed(candidates[k])
  {
    if n > 0 {
      EvaluatedAt(candidates, n - 1, k);
    }
  }

  // ---------------------------------------------------------------- whole runs

  /** Some listed candidate was judged on numbers that promote, or on numbers worth another round. */
  ghost predicate SomePromotable(candidates: seq<Candidate>) {
    exists k :: 0 <= k < |candidates| && k < 100 && candidates[k].judgedOn.Some?
      && Promotable(candidates[k].judgedOn.value)
  }

  ghost predicate SomeWorthAnotherRound(candidates: seq<Candidate>) {
    exists k :: 0 <= k < |candidates| && k < 100 && candidates[k].judgedOn.Some?
      && WorthAnotherRound(candidates[k].judgedOn.value)
  }

  ghost predicate AllJudgedRight(candidates: seq<Candidate>) {
    forall k :: 0 <= k < |candidates| ==> JudgedRight(candidates[k])
  }

  ghost predicate Sound(c: Cycle) {
    AllJudgedRight(c.candidates) && Tidy(c) && (c.status == Promoted ==> SomePromotable(c.candidates))
  }

  lemma PromoteMeans(candidates: seq<Candidate>)
    requires AllJudgedRight(candidates)
    ensures SomeVerdict(candidates, Promote) <==> SomePromotable(candidates)
  {
    if SomePromotable(candidates) {
      var k :| 0 <= k < |candidates| && k < 100 && candidates[k].judgedOn.Some?
        && Promotable(candidates[k].judgedOn.value);
      assert candidates[k].status == Evaluated && candidates[k].verdict == Some(Promote);
    }
  }

  lemma BorderlineMeans(candidates: seq<Candidate>)
    requires AllJudgedRight(candidates) && !SomePromotable(candidates)
    ensures SomeVerdict(candidates, Borderline) <==> SomeWorthAnotherRound(candidates)
  {
    if SomeWorthAnotherRound(candidates) {
      var k :| 0 <= k < |candidates| && k < 100 && candidates[k].judgedOn.Some?
        && WorthAnotherRound(candidates[k].judgedOn.value);
      assert candidates[k].status == Evaluated && candidates[k].verdict == Some(Borderline);
    }
  }

  lemma {:induction false} AllClosed(candidates: seq<Candidate>, n: nat)
    requires n <= |candidates| && Unevaluated(candidates, n) == 0
    ensures forall k :: 0 <= k < n ==> candidates[k].status == Evaluated
  {
    if n > 0 {
      AllClosed(candidates, n - 1);
    }
  }

  /** Every listed candidate of a cycle in its evaluation has been judged, and the tick goes by the numbers. */
  lemma EvaluationGoesByNumbers(c: Cycle)
    requires Sound(c) && c.status == Evaluating && !Exhausted(c)
    ensures forall k :: 0 <= k < |c.candidates| && k < 100 ==> c.candidates[k].judgedOn.Some?
    ensures Tick(c).0.status ==
      if SomePromotable(c.candidates) then Promoted
      else if SomeWorthAnotherRound(c.candidates) then ReResearch else Archived
  {
    AllClosed(c.candidates, Listed(c.candidates));
    PromoteMeans(c.candidates);
    if !SomePromotable(c.candidates) {
      BorderlineMeans(c.candidates);
    }
  }

  lemma {:induction false} FreshAreUnjudged(ds: seq<Discovery>, ps: seq<Pattern>)
    ensures AllJudgedRight(CandidatesFor(ds, ps))
  {
    if ps != [] {
      FreshAreUnjudged(ds, ps[..|ps|-1]);
    }
  }

  lemma TickJudgesRight(c: Cycle)
    requires AllJudgedRight(c.candidates)
    ensures AllJudgedRight(Tick(c).0.candidates)
  {
    if c.status == FactorValidated && !Exhausted(c) {
      SynthesisTick(c);
      FreshAreUnjudged(Significant(c.discoveries), PatternsOf(Significant(c.discoveries)));
    } else {
      forall k | 0 <= k < |Tick(c).0.candidates| ensures JudgedRight(Tick(c).0.candidates[k]) {
        JudgedOnItsNumbers(c, k);
      }
    }
  }

  lemma TickIsSound(c: Cycle)
    requires Sound(c)
    ensures Sound(Tick(c).0)
  {
    TickTidies(c);
    TickJudgesRight(c);
    NextStatus(c);
    if c.status == Evaluating && !Exhausted(c) {
      EvaluationGoesByNumbers(c);
    }
  }

  lemma {:induction false} EnvironmentIsSound(c: Cycle, events: seq<Event>)
    requires Sound(c)
    ensures Sound(ApplyAll(c, events))
  {
    EnvironmentTidies(c, events);
    if events != [] {
      var mid, e := ApplyAll(c, events[..|events|-1]), events[|events|-1];
      EnvironmentIsSound(c, events[..|events|-1]);
      EventKeepsVerdicts(mid, e);
    }
  }

  /** What arrives later changes no verdict, nor what it was given on. */
  lemma EventKeepsVerdicts(c: Cycle, e: Event)
    requires AllJudgedRight(c.candidates)
    ensures AllJudgedRight(Apply(c, e).candidates)
    ensures SomePromotable(c.candidates) ==> SomePromotable(Apply(c, e).candidates)
  {
    var c' := Apply(c, e);
    assert forall k :: 0 <= k < |c.candidates| ==> c'.candidates[k].judgedOn == c.candidates[k].judgedOn;
  }

  ghost predicate KeepsSound(step: Machine) {
    forall c, events :: Sound(c) ==> Sound(step(c, events).0)
  }

  lemma StepsKeepSound()
    ensures KeepsSound(Step)
  {
    forall c, events | Sound(c) ensures Sound(Step(c, events).0) {
      EnvironmentIsSound(c, events);
      TickIsSound(ApplyAll(c, events));
    }
  }

  lemma {:induction false} RunIsSound(step: Machine, c: Cycle, env: Environment, n: nat)
    requires KeepsSound(step) && Sound(c)
    ensures Sound(Run(step, c, env, n))
  {
    if n > 0 {
      RunIsSound(step, c, env, n - 1);
    }
  }

  /** In every run of a new cycle, however discoveries and results arrive: a tick that finds it in its evaluation
      with budget left promotes it exactly if some candidate among the first hundred was judged on a Sharpe ratio of
      at least 0.8, a drawdown of at most 0.10 and at least 30 trades; else it researches again exactly if one had a
      Sharpe ratio of at least 0.4, and else it is archived. */
  lemma OutcomeByNumbers(budget: Budget, env: Environment, n: nat)
    ensures var c := ApplyAll(After(NewCycle(budget), env, n), env(n));
      c.status == Evaluating && !Exhausted(c) ==>
        && (forall k :: 0 <= k < |c.candidates| && k < 100 ==> c.candidates[k].judgedOn.Some?)
        && After(NewCycle(budget), env, n + 1).status ==
             if SomePromotable(c.candidates) then Promoted
             else if SomeWorthAnotherRound(c.candidates) then ReResearch else Archived
  {
    var before := After(NewCycle(budget), env, n);
    StepsKeepSound();
    RunIsSound(Step, NewCycle(budget), env, n);
    EnvironmentIsSound(before, env(n));
    var c := ApplyAll(before, env(n));
    if c.status == Evaluating && !Exhausted(c) {
      EvaluationGoesByNumbers(c);
    }
  }

  /** And it is promoted on nothing else. */
  lemma PromotedOnNumbers(budget: Budget, env: Environment, n: nat)
    requires After(NewCycle(budget), env, n).status == Promoted
    ensures SomePromotable(After(NewCycle(budget), env, n).candidates)
  {
    StepsKeepSound();
    RunIsSound(Step, NewCycle(budget), env, n);
  }
}
