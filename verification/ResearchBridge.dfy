/** From factor discoveries to strategy candidates: one candidate per factor pattern. */
module ResearchBridge {
  import opened Wrappers

  datatype Pattern = Trend | Momentum | MeanReversion | OverboughtOversold | Volatility | Breakout | Volume | Sentiment

  datatype Discovery = Discovery(id: string, factorNames: seq<string>, significant: bool)

  datatype CandidateStatus = Generated | Evaluated

  datatype Verdict = Promote | Borderline | Reject

  /** What a backtest reported for a candidate. */
  datatype Numbers = Numbers(sharpe: Option<real>, drawdown: Option<real>, trades: Option<int>)

  /** `judgedOn` is history: the numbers the verdict was given on. Nothing the service does reads it. */
  datatype Candidate = Candidate(
    pattern: Pattern,
    discoveries: seq<Discovery>,
    status: CandidateStatus,
    sharpe: Option<real>,
    drawdown: Option<real>,
    trades: Option<int>,
    verdict: Option<Verdict>,
    judgedOn: Option<Numbers>)

  // ---------------------------------------------------------------- classification

  function LowerChar(c: char): char {
    if 'A' <= c <= 'Z' then c - 'A' + 'a' else c
  }

  function Lower(s: string): string {
    seq(|s|, k requires 0 <= k < |s| => LowerChar(s[k]))
  }

  function JoinLower(names: seq<string>): string {
    if names == [] then ""
    else if |names| == 1 then Lower(names[0])
    else JoinLower(names[..|names|-1]) + " " + Lower(names[|names|-1])
  }

  predicate Contains(s: string, keyword: string) {
    keyword <= s || (s != "" && Contains(s[1..], keyword))
  }

  const KEYWORDS := [
    ("trend", Trend), ("momentum", Momentum), ("mean_rev", MeanReversion), ("overbought", OverboughtOversold),
    ("oversold", OverboughtOversold), ("volatility", Volatility), ("atr", Volatility), ("breakout", Breakout),
    ("volume", Volume), ("sentiment", Sentiment)]

  function FirstKeyword(s: string, keywords: seq<(string, Pattern)>): Pattern {
    if keywords == [] then Trend
    else if Contains(s, keywords[0].0) then keywords[0].1
    else FirstKeyword(s, keywords[1..])
  }

  /** The pattern of the first keyword found in the lower-cased names; trend if none is. */
  function Classify(names: seq<string>): Pattern {
    FirstKeyword(JoinLower(names), KEYWORDS)
  }

  // ---------------------------------------------------------------- grouping

  /** The discoveries of one pattern, in order. */
  function OfPattern(ds: seq<Discovery>, p: Pattern): seq<Discovery> {
    if ds == [] then []
    else
      var d := ds[|ds|-1];
      OfPattern(ds[..|ds|-1], p) + if Classify(d.factorNames) == p then [d] else []
  }

  /** The patterns that occur, in order of first appearance. */
  function PatternsOf(ds: seq<Discovery>): seq<Pattern> {
    if ds == [] then []
    else
      var earlier := PatternsOf(ds[..|ds|-1]);
      var p := Classify(ds[|ds|-1].factorNames);
      if p in earlier then earlier else earlier + [p]
  }

  function NewCandidate(ds: seq<Discovery>, p: Pattern): Candidate {
    Candidate(p, OfPattern(ds, p), Generated, None, None, None, None, None)
  }

  /** One candidate for each of the given patterns. */
  function CandidatesFor(ds: seq<Discovery>, ps: seq<Pattern>): (r: seq<Candidate>)
    ensures |r| == |ps|
  {
    if ps == [] then [] else CandidatesFor(ds, ps[..|ps|-1]) + [NewCandidate(ds, ps[|ps|-1])]
  }

  function Synthesized(ds: seq<Discovery>): seq<Candidate> {
    CandidatesFor(ds, PatternsOf(ds))
  }

  /** Groups the discoveries by pattern, keeping the patterns in the order they first appear. */
  method GroupDiscoveries(ds: seq<Discovery>) returns (keys: seq<Pattern>, groups: map<Pattern, seq<Discovery>>)
    ensures keys == PatternsOf(ds)
    ensures forall p :: p in groups <==> p in keys
    ensures forall p :: p in groups ==> groups[p] == OfPattern(ds, p)
  {
    keys, groups := [], map[];
    for n := 0 to |ds|
      invariant keys == PatternsOf(ds[..n])
      invariant forall p :: p in groups <==> p in keys
      invariant forall p :: p in groups ==> groups[p] == OfPattern(ds[..n], p)
    {
      assert ds[..n+1][..n] == ds[..n];
      var d := ds[n];
      var p := Classify(d.factorNames);
      if p !in groups {
        NoneOfAbsentPattern(ds[..n], p);
        keys := keys + [p];
        groups := groups[p := []];
      }
      groups := groups[p := groups[p] + [d]];
    }
    assert ds[..|ds|] == ds;
  }

  lemma {:induction false} NoneOfAbsentPattern(ds: seq<Discovery>, p: Pattern)
    ensures p !in PatternsOf(ds) <==> OfPattern(ds, p) == []
  {
    if ds != [] {
      NoneOfAbsentPattern(ds[..|ds|-1], p);
    }
  }

  /** One new candidate per group. */
  method SynthesizeCandidates(ds: seq<Discovery>) returns (candidates: seq<Candidate>)
    ensures candidates == Synthesized(ds)
  {
    candidates := [];
    if ds == [] {
      return;
    }
    var keys, groups := GroupDiscoveries(ds);
    for n := 0 to |keys|
      invariant candidates == CandidatesFor(ds, keys[..n])
    {
      assert keys[..n+1][..n] == keys[..n];
      candidates := candidates + [Candidate(keys[n], groups[keys[n]], Generated, None, None, None, None, None)];
    }
    assert keys[..|keys|] == keys;
  }

  // ---------------------------------------------------------------- every discovery in exactly one candidate

  function AllDiscoveries(candidates: seq<Candidate>): seq<Discovery> {
    if candidates == [] then []
    else AllDiscoveries(candidates[..|candidates|-1]) + candidates[|candidates|-1].discoveries
  }

  lemma {:induction false} PatternsAreDistinct(ds: seq<Discovery>)
    ensures forall j, k :: 0 <= j < k < |PatternsOf(ds)| ==> PatternsOf(ds)[j] != PatternsOf(ds)[k]
    ensures forall d :: d in ds ==> Classify(d.factorNames) in PatternsOf(ds)
    ensures |PatternsOf(ds)| <= 8
    ensures ds != [] ==> |PatternsOf(ds)| >= 1
  {
    if ds != [] {
      PatternsAreDistinct(ds[..|ds|-1]);
    }
    DistinctPatterns(PatternsOf(ds));
  }

  lemma DistinctPatterns(ps: seq<Pattern>)
    requires forall j, k :: 0 <= j < k < |ps| ==> ps[j] != ps[k]
    ensures |ps| <= 8
  {
    var all := {Trend, Momentum, MeanReversion, OverboughtOversold, Volatility, Breakout, Volume, Sentiment};
    SetOfDistinct(ps);
    SubsetSize((set p | p in ps), all);
  }

  lemma {:induction false} SetOfDistinct(ps: seq<Pattern>)
    requires forall j, k :: 0 <= j < k < |ps| ==> ps[j] != ps[k]
    ensures |set p | p in ps| == |ps|
  {
    if ps != [] {
      var front := ps[..|ps|-1];
      SetOfDistinct(front);
      assert (set p | p in ps) == (set p | p in front) + {ps[|ps|-1]};
      assert forall k :: 0 <= k < |front| ==> front[k] == ps[k];
    }
  }

  lemma SubsetSize(a: set<Pattern>, b: set<Pattern>)
    requires forall p :: p in a ==> p in b
    ensures |a| <= |b|
  {
    assert b == a + (b - a);
  }

  lemma {:induction false} OfPatternCount(ds: seq<Discovery>, p: Pattern, d: Discovery)
    ensures multiset(OfPattern(ds, p))[d] == if Classify(d.factorNames) == p then multiset(ds)[d] else 0
  {
    if ds != [] {
      OfPatternCount(ds[..|ds|-1], p, d);
      assert ds == ds[..|ds|-1] + [ds[|ds|-1]];
    }
  }

  lemma {:induction false} CandidatesCount(ds: seq<Discovery>, ps: seq<Pattern>, d: Discovery)
    requires forall j, k :: 0 <= j < k < |ps| ==> ps[j] != ps[k]
    ensures multiset(AllDiscoveries(CandidatesFor(ds, ps)))[d] == if Classify(d.factorNames) in ps
        then multiset(ds)[d] else 0
  {
    if ps != [] {
      var front, p := ps[..|ps|-1], ps[|ps|-1];
      CandidatesCount(ds, front, d);
      OfPatternCount(ds, p, d);
      var earlier := CandidatesFor(ds, front);
      assert (earlier + [NewCandidate(ds, p)])[..|earlier|] == earlier;
      assert ps == front + [p];
    }
  }

  /** Every discovery lands in exactly one candidate, with its multiplicity; there are at most eight
      candidates, and at least one as soon as there is a discovery. */
  lemma CandidatesPartitionDiscoveries(ds: seq<Discovery>)
    ensures multiset(AllDiscoveries(Synthesized(ds))) == multiset(ds)
    ensures |Synthesized(ds)| <= 8
    ensures ds != [] ==> |Synthesized(ds)| >= 1
  {
    PatternsAreDistinct(ds);
    forall d ensures multiset(AllDiscoveries(Synthesized(ds)))[d] == multiset(ds)[d] {
      CandidatesCount(ds, PatternsOf(ds), d);
      assert d in ds ==> Classify(d.factorNames) in PatternsOf(ds);
    }
  }

  // ---------------------------------------------------------------- evaluation

  const SHARPE_THRESHOLD := 0.8
  const MAX_DRAWDOWN := 0.10
  const MIN_TRADES := 30

  /** A candidate once its backtest results are in. */
  function EvaluateCandidate(c: Candidate): Candidate {
    var verdict :=
      if && c.sharpe.Some? && c.sharpe.value >= SHARPE_THRESHOLD
         && c.drawdown.Some? && c.drawdown.value <= MAX_DRAWDOWN
         && c.trades.Some? && c.trades.value >= MIN_TRADES then Promote
      else if c.sharpe.Some? && c.sharpe.value >= SHARPE_THRESHOLD * 0.5 then Borderline
      else Reject;
    c.(verdict := Some(verdict), status := Evaluated, judgedOn := Some(Numbers(c.sharpe, c.drawdown, c.trades)))
  }
}
