/** A run of the research loop that overshoots both of its budgets by as much as any run can. */
module ResearchOvershoot {
  import opened Wrappers
  import opened ResearchBridge
  import opened ResearchLoop
  import opened ResearchBudgets

  // ---------------------------------------------------------------- keywords

  /** The first two characters of `keyword` stand nowhere in `s` with room for the rest. */
  predicate NoStart(s: string, keyword: string)
    requires |keyword| >= 2
  {
    forall k :: 0 <= k <= |s| - |keyword| ==> s[k] != keyword[0] || s[k+1] != keyword[1]
  }

  lemma {:induction false} NotContained(s: string, keyword: string)
    requires |keyword| >= 2 && NoStart(s, keyword)
    ensures !Contains(s, keyword)
  {
    if |keyword| <= |s| {
      assert s[0] != keyword[0] || s[1] != keyword[1];
    }
    if s != "" {
      assert forall k :: 0 <= k < |s| - 1 ==> s[1..][k] == s[k+1];
      NotContained(s[1..], keyword);
    }
  }

  lemma {:induction false} KeywordAt(s: string, keywords: seq<(string, Pattern)>, n: nat)
    requires n < |keywords| && Contains(s, keywords[n].0)
    requires forall k :: 0 <= k < n ==> |keywords[k].0| >= 2 && NoStart(s, keywords[k].0)
    ensures FirstKeyword(s, keywords) == keywords[n].1
  {
    if n > 0 {
      NotContained(s, keywords[0].0);
      KeywordAt(s, keywords[1..], n - 1);
    }
  }

  predicate LowerCase(s: string) {
    forall k :: 0 <= k < |s| ==> !('A' <= s[k] <= 'Z')
  }

  /** A keyword in lower case stands for its pattern unless an earlier one starts inside it. */
  lemma KeywordNames(n: nat)
    requires n < |KEYWORDS| && LowerCase(KEYWORDS[n].0)
    requires forall k :: 0 <= k < n ==> |KEYWORDS[k].0| >= 2 && NoStart(KEYWORDS[n].0, KEYWORDS[k].0)
    ensures Classify([KEYWORDS[n].0]) == KEYWORDS[n].1
  {
    var s := KEYWORDS[n].0;
    assert JoinLower([s]) == Lower(s) == s;
    KeywordAt(s, KEYWORDS, n);
  }

  /** The positions of keywords that stand for the eight patterns. */
  const KINDS := [0, 1, 2, 3, 5, 7, 8, 9]

  lemma FirstKinds(k: nat)
    requires k < 4
    ensures KINDS[k] < |KEYWORDS| && Classify([KEYWORDS[KINDS[k]].0]) == KEYWORDS[KINDS[k]].1
  {
    KeywordNames(KINDS[k]);
  }

  lemma MiddleKinds(k: nat)
    requires 4 <= k < 6
    ensures KINDS[k] < |KEYWORDS| && Classify([KEYWORDS[KINDS[k]].0]) == KEYWORDS[KINDS[k]].1
  {
    KeywordNames(KINDS[k]);
  }

  lemma LastKinds(k: nat)
    requires 6 <= k < |KINDS|
    ensures KINDS[k] < |KEYWORDS| && Classify([KEYWORDS[KINDS[k]].0]) == KEYWORDS[KINDS[k]].1
  {
    KeywordNames(KINDS[k]);
  }

  lemma KindsAreKeywords(k: nat)
    requires k < |KINDS|
    ensures KINDS[k] < |KEYWORDS| && Classify([KEYWORDS[KINDS[k]].0]) == KEYWORDS[KINDS[k]].1
  {
    if k < 4 {
      FirstKinds(k);
    } else if k < 6 {
      MiddleKinds(k);
    } else {
      LastKinds(k);
    }
  }

  // ---------------------------------------------------------------- one discovery of each pattern

  function KindOf(k: nat): Discovery
    requires k < |KINDS|
  {
    Discovery("", if KINDS[k] < |KEYWORDS| then [KEYWORDS[KINDS[k]].0] else [], true)
  }

  /** A significant discovery of each of the first `n` kinds. */
  function Kinds(n: nat): (r: seq<Discovery>)
    requires n <= |KINDS|
    ensures |r| == n && forall k :: 0 <= k < n ==> r[k] == KindOf(k)
  {
    if n == 0 then [] else Kinds(n - 1) + [KindOf(n - 1)]
  }

  lemma {:induction false} PatternsOfDistinct(ds: seq<Discovery>)
    requires forall j, k :: 0 <= j < k < |ds| ==> Classify(ds[j].factorNames) != Classify(ds[k].factorNames)
    ensures |PatternsOf(ds)| == |ds|
    ensures forall p :: p in PatternsOf(ds) ==> exists k :: 0 <= k < |ds| && p == Classify(ds[k].factorNames)
  {
    if ds != [] {
      var front := ds[..|ds|-1];
      PatternsOfDistinct(front);
      forall p | p in PatternsOf(front) ensures exists k :: 0 <= k < |front| && p == Classify(ds[k].factorNames) {
        var k :| 0 <= k < |front| && p == Classify(front[k].factorNames);
        assert front[k] == ds[k];
      }
    }
  }

  lemma {:induction false} AllSignificant(ds: seq<Discovery>)
    requires forall k :: 0 <= k < |ds| ==> ds[k].significant
    ensures Significant(ds) == ds
  {
    if ds != [] {
      AllSignificant(ds[..|ds|-1]);
    }
  }

  lemma KindsDiffer(j: nat, k: nat)
    requires j < k < |KINDS|
    ensures Classify(KindOf(j).factorNames) != Classify(KindOf(k).factorNames)
  {
    KindsAreKeywords(j);
    KindsAreKeywords(k);
  }

  /** Eight significant discoveries, of eight patterns. */
  lemma PatternsOfKinds()
    ensures |PatternsOf(Kinds(8))| == 8 && Significant(Kinds(8)) == Kinds(8)
  {
    var ds := Kinds(8);
    forall j, k | 0 <= j < k < |ds| ensures Classify(ds[j].factorNames) != Classify(ds[k].factorNames) {
      KindsDiffer(j, k);
    }
    PatternsOfDistinct(ds);
    AllSignificant(ds);
  }

  // ---------------------------------------------------------------- the run

  function Found(n: nat): seq<Event>
    requires n <= |KINDS|
  {
    if n == 0 then [] else Found(n - 1) + [Discovered(KindOf(n - 1))]
  }

  function Results(n: nat): seq<Event> {
    if n == 0 then [] else Results(n - 1) + [BacktestDone(n - 1, 1.0, None, None)]
  }

  /** The discoveries arrive before the first tick, the backtest results before the fifth. */
  function Arrivals(): Environment {
    k => if k == 0 then Found(8) else if k == 4 then Results(8) else []
  }

  lemma {:induction false} FoundArrive(c: Cycle, n: nat)
    requires n <= |KINDS| && c.discoveries == []
    ensures ApplyAll(c, Found(n)) == c.(discoveries := Kinds(n))
  {
    if n > 0 {
      FoundArrive(c, n - 1);
      assert Found(n)[..n-1] == Found(n - 1) by {
        FoundCount(n - 1);
      }
      FoundCount(n);
      assert Found(n)[n-1] == Discovered(KindOf(n - 1));
    }
  }

  lemma {:induction false} FoundCount(n: nat)
    requires n <= |KINDS|
    ensures |Found(n)| == n
  {
    if n > 0 {
      FoundCount(n - 1);
    }
  }

  lemma {:induction false} ResultsCount(n: nat)
    ensures |Results(n)| == n
  {
    if n > 0 {
      ResultsCount(n - 1);
    }
  }

  lemma {:induction false} ResultsArrive(c: Cycle, n: nat)
    requires n <= |c.candidates|
    ensures var c' := ApplyAll(c, Results(n));
      && c' == c.(candidates := c'.candidates) && |c'.candidates| == |c.candidates|
      && (forall k :: 0 <= k < n ==> c'.candidates[k].sharpe.Some?)
      && (forall k :: 0 <= k < |c.candidates| ==> c'.candidates[k].status == c.candidates[k].status)
  {
    if n > 0 {
      ResultsArrive(c, n - 1);
      ResultsCount(n);
      ResultsCount(n - 1);
      assert Results(n)[..n-1] == Results(n - 1);
      assert Results(n)[n-1] == BacktestDone(n - 1, 1.0, None, None);
    }
  }

  ghost predicate Positive(budget: Budget) {
    budget.maxTrials > 0 && budget.maxBacktests > 0 && budget.maxLlmCalls > 0
  }

  /** The cycle once its factors are validated. */
  function Validated(budget: Budget): Cycle {
    NewCycle(budget).(status := FactorValidated, discoveries := Kinds(8))
  }

  lemma TwoTicks(budget: Budget)
    requires Positive(budget)
    ensures After(NewCycle(budget), Arrivals(), 2) == Validated(budget)
  {
    var c := NewCycle(budget);
    FoundArrive(c, 8);
    PatternsOfKinds();
    assert After(c, Arrivals(), 0) == c;
    assert After(c, Arrivals(), 1) == c.(status := Researching, discoveries := Kinds(8));
    assert After(c, Arrivals(), 2) == Tick(After(c, Arrivals(), 1)).0;
  }

  lemma ThirdTick(budget: Budget)
    requires Positive(budget)
    ensures After(NewCycle(budget), Arrivals(), 3)
         == Validated(budget).(status := Synthesizing, candidates := Synthesized(Kinds(8)), llmCalls := 8)
  {
    TwoTicks(budget);
    PatternsOfKinds();
    SynthesisTick(Validated(budget));
    assert After(NewCycle(budget), Arrivals(), 3) == Tick(After(NewCycle(budget), Arrivals(), 2)).0;
  }

  /** Eight patterns found under a budget of one LLM call: the third tick makes eight calls. */
  lemma CallsOvershootBySeven()
    ensures After(NewCycle(Budget(50, 20, 1)), Arrivals(), 3).llmCalls == 1 + 7
  {
    ThirdTick(Budget(50, 20, 1));
  }

  lemma {:induction false} NewCandidatesAreOpen(ds: seq<Discovery>, ps: seq<Pattern>, n: nat)
    requires n <= |ps|
    ensures Unevaluated(CandidatesFor(ds, ps), n) == n
    ensures n > 0 ==> CandidatesFor(ds, ps)[n-1].status == Generated
    decreases |ps|, n
  {
    if 0 < n < |ps| {
      var front := CandidatesFor(ds, ps[..|ps|-1]);
      NewCandidatesAreOpen(ds, ps[..|ps|-1], n);
      forall k | 0 <= k < n ensures CandidatesFor(ds, ps)[k].status == front[k].status {
      }
      SameStatuses(CandidatesFor(ds, ps), front, n);
    } else if n > 0 {
      NewCandidatesAreOpen(ds, ps, n - 1);
    }
  }

  lemma FourthTick(budget: Budget)
    requires Positive(budget) && budget.maxLlmCalls > 8
    ensures var c := After(NewCycle(budget), Arrivals(), 4);
      c.status == Backtesting && c.candidates == Synthesized(Kinds(8)) && c.budget == budget
      && c.backtests == 0 && c.trials == 0 && c.llmCalls == 8
  {
    ThirdTick(budget);
    PatternsOfKinds();
    NewCandidatesAreOpen(Kinds(8), PatternsOf(Kinds(8)), 8);
    var c := After(NewCycle(budget), Arrivals(), 3);
    assert c.candidates[7].status == Generated;
    assert After(NewCycle(budget), Arrivals(), 4) == Tick(c).0;
  }

  /** A round whose results have all come in. */
  lemma RoundOf(c: Cycle, n: nat)
    requires c.status == Backtesting && !Exhausted(c) && |c.candidates| == n <= PAGE
    ensures Tick(ApplyAll(c, Results(n))).0.backtests == c.backtests + Unevaluated(c.candidates, n)
  {
    ResultsArrive(c, n);
    var before := ApplyAll(c, Results(n));
    SameStatuses(c.candidates, before.candidates, n);
    TickSpends(before);
  }

  lemma FifthTick(c: Cycle)
    ensures After(c, Arrivals(), 5) == Tick(ApplyAll(After(c, Arrivals(), 4), Results(8))).0
  {
    assert Arrivals()(4) == Results(8);
  }

  /** The eight candidates evaluated under a budget of one backtest: the fifth tick counts eight. */
  lemma BacktestsOvershootBySeven()
    ensures After(NewCycle(Budget(50, 1, 100)), Arrivals(), 5).backtests == 1 + 7
  {
    var budget := Budget(50, 1, 100);
    var c := After(NewCycle(budget), Arrivals(), 4);
    FourthTick(budget);
    PatternsOfKinds();
    NewCandidatesAreOpen(Kinds(8), PatternsOf(Kinds(8)), 8);
    RoundOf(c, 8);
    FifthTick(NewCycle(budget));
  }
}
