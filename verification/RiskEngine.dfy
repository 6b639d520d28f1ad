/** The layered risk engine: it scans the layers in order and stops early on a force-flatten. */
module RiskEngine {
  import opened Wrappers

  datatype ResultType = ForceFlatten | Reject | Resize | Delay | Allow

  datatype Layer = Market | Account | Strategy | Instrument | Order

  datatype RuleResult =
    RuleResult(resultType: ResultType, ruleName: string, reason: string, resizedQuantity: Option<int>)

  /** A rule answers for a context, or has no concern. */
  datatype Rule<!C> = Rule(layer: Layer, check: C -> Option<RuleResult>)

  datatype CheckResult =
    CheckResult(resultType: ResultType, resizedQuantity: Option<int>, rejectReason: string, triggered: seq<string>)

  const LAYER_ORDER := [Market, Account, Strategy, Instrument, Order]

  function Priority(t: ResultType): int {
    match t
    case ForceFlatten => 5
    case Reject => 4
    case Resize => 3
    case Delay => 2
    case Allow => 1
  }

  function BuildResult(best: Option<RuleResult>, triggered: seq<string>): CheckResult {
    if best.None? then CheckResult(Allow, None, "", [])
    else CheckResult(best.value.resultType, best.value.resizedQuantity, best.value.reason, triggered)
  }

  // ---------------------------------------------------------------- the full scan

  /** The answers of the first `n` rules of `rules`, restricted to one layer. */
  function LayerAnswers<C>(rules: seq<Rule<C>>, layer: Layer, c: C, n: nat): seq<RuleResult>
    requires n <= |rules|
  {
    if n == 0 then []
    else
      var earlier := LayerAnswers(rules, layer, c, n - 1);
      if rules[n-1].layer == layer && rules[n-1].check(c).Some? then earlier + [rules[n-1].check(c).value] else earlier
  }

  /** Every answer of every rule in the first `k` layers, none skipped. */
  function Answers<C>(rules: seq<Rule<C>>, c: C, k: nat): seq<RuleResult>
    requires k <= |LAYER_ORDER|
  {
    if k == 0 then [] else Answers(rules, c, k - 1) + LayerAnswers(rules, LAYER_ORDER[k-1], c, |rules|)
  }

  function FullScan<C>(rules: seq<Rule<C>>, c: C): seq<RuleResult> {
    Answers(rules, c, |LAYER_ORDER|)
  }

  /** The first answer of the highest priority among the first `n`. */
  function BestTo(answers: seq<RuleResult>, n: nat): (b: Option<RuleResult>)
    requires n <= |answers|
    ensures b.None? <==> n == 0
  {
    if n == 0 then None
    else
      var b := BestTo(answers, n - 1);
      if b.None? || Priority(answers[n-1].resultType) > Priority(b.value.resultType) then Some(answers[n-1]) else b
  }

  function Best(answers: seq<RuleResult>): Option<RuleResult> {
    BestTo(answers, |answers|)
  }

  /** No answer is stricter than the best one, which is one of them. */
  lemma {:induction false} BestIsStrictest(answers: seq<RuleResult>, n: nat)
    requires 0 < n <= |answers|
    ensures BestTo(answers, n).value in answers[..n]
    ensures forall j :: 0 <= j < n ==> Priority(answers[j].resultType) <= Priority(BestTo(answers, n).value.resultType)
  {
    if n > 1 {
      BestIsStrictest(answers, n - 1);
      assert answers[..n] == answers[..n-1] + [answers[n-1]];
    } else {
      assert answers[..n] == [answers[0]];
    }
  }

  lemma {:induction false} BestOfPrefix(answers: seq<RuleResult>, more: seq<RuleResult>, n: nat)
    requires n <= |answers|
    ensures BestTo(answers + more, n) == BestTo(answers, n)
  {
    if n > 0 {
      BestOfPrefix(answers, more, n - 1);
    }
  }

  /** Once a force-flatten is the best answer, it stays so. */
  lemma {:induction false} FlattenStaysBest(answers: seq<RuleResult>, k: nat, n: nat)
    requires 0 < k <= n <= |answers|
    requires BestTo(answers, k).value.resultType == ForceFlatten
    ensures BestTo(answers, n) == BestTo(answers, k)
    decreases n
  {
    if k < n {
      FlattenStaysBest(answers, k, n - 1);
    }
  }

  function Names(answers: seq<RuleResult>): seq<string> {
    seq(|answers|, k requires 0 <= k < |answers| => answers[k].ruleName)
  }

  predicate NoFlatten(answers: seq<RuleResult>) {
    forall k :: 0 <= k < |answers| ==> answers[k].resultType != ForceFlatten
  }

  /** `r` is what a full scan with the given answers decides; only when something forces a flatten may
      it leave the rules after that one unlisted. */
  ghost predicate Decides(answers: seq<RuleResult>, r: CheckResult) {
    && r == BuildResult(Best(answers), r.triggered)
    && r.triggered <= Names(answers)
    && (NoFlatten(answers) ==> r.triggered == Names(answers))
  }

  // ---------------------------------------------------------------- the engine

  class RiskEngine<!C> {
    var rules: seq<Rule<C>>

    constructor ()
      ensures rules == []
    {
      rules := [];
    }

    method RegisterRule(rule: Rule<C>)
      modifies this
      ensures rules == old(rules) + [rule]
    {
      rules := rules + [rule];
    }

    /** Scans one layer in registration order; `flattened` says that it stopped at a force-flatten. */
    method ScanLayer(c: C, k: nat, triggered0: seq<string>, best0: Option<RuleResult>)
      returns (triggered: seq<string>, best: Option<RuleResult>, flattened: bool)
      requires k < |LAYER_ORDER| && Tracks(Answers(rules, c, k), best0, triggered0)
      ensures !flattened ==> Tracks(Answers(rules, c, k + 1), best, triggered)
      ensures flattened ==> Decides(FullScan(rules, c), BuildResult(best, triggered))
    {
      triggered, best, flattened := triggered0, best0, false;
      ghost var before := Answers(rules, c, k);
      assert before + [] == before;
      for n := 0 to |rules|
        invariant !flattened && Tracks(before + LayerAnswers(rules, LAYER_ORDER[k], c, n), best, triggered)
      {
        if rules[n].layer == LAYER_ORDER[k] {
          var result := rules[n].check(c);
          if result.Some? {
            var answer := result.value;
            ghost var seen := before + LayerAnswers(rules, LAYER_ORDER[k], c, n);
            TrackNext(seen, best, triggered, answer);
            assert before + LayerAnswers(rules, LAYER_ORDER[k], c, n + 1) == seen + [answer];
            triggered := triggered + [answer.ruleName];
            if best.None? || Priority(answer.resultType) > Priority(best.value.resultType) {
              best := result;
            }
            if answer.resultType == ForceFlatten {
              SeenIsPrefix(rules, c, k, n + 1);
              FlattenDecides(FullScan(rules, c), seen + [answer]);
              flattened := true;
              return;
            }
          }
        }
      }
    }

    /** Scans layer by layer, stopping at a force-flatten. */
    method Evaluate(c: C) returns (r: CheckResult)
      ensures Decides(FullScan(rules, c), r)
    {
      var triggered: seq<string> := [];
      var best: Option<RuleResult> := None;
      for k := 0 to |LAYER_ORDER|
        invariant Tracks(Answers(rules, c, k), best, triggered)
      {
        var flattened;
        triggered, best, flattened := ScanLayer(c, k, triggered, best);
        if flattened {
          return BuildResult(best, triggered);
        }
      }
      r := BuildResult(best, triggered);
    }
  }

  /** The scan's variables after the answers `seen`, none of which was a force-flatten. */
  ghost predicate Tracks(seen: seq<RuleResult>, best: Option<RuleResult>, triggered: seq<string>) {
    NoFlatten(seen) && triggered == Names(seen) && best == Best(seen)
  }

  /** One more answer. */
  lemma TrackNext(seen: seq<RuleResult>, best: Option<RuleResult>, triggered: seq<string>, answer: RuleResult)
    requires Tracks(seen, best, triggered)
    ensures triggered + [answer.ruleName] == Names(seen + [answer])
    ensures Best(seen + [answer])
         == if best.None? || Priority(answer.resultType) > Priority(best.value.resultType) then Some(answer) else best
    ensures answer.resultType != ForceFlatten ==> NoFlatten(seen + [answer])
    ensures answer.resultType == ForceFlatten ==> Best(seen + [answer]) == Some(answer)
  {
    BestOfPrefix(seen, [answer], |seen|);
    if seen != [] {
      BestIsStrictest(seen, |seen|);
      assert best.value in seen;
    }
  }

  lemma {:induction false} SeenIsPrefix<C>(rules: seq<Rule<C>>, c: C, k: nat, n: nat)
    requires k < |LAYER_ORDER| && n <= |rules|
    ensures Answers(rules, c, k) + LayerAnswers(rules, LAYER_ORDER[k], c, n) <= FullScan(rules, c)
  {
    LayerPrefix(rules, LAYER_ORDER[k], c, n, |rules|);
    LayersPrefix(rules, c, k + 1, |LAYER_ORDER|);
  }

  lemma {:induction false} LayerPrefix<C>(rules: seq<Rule<C>>, layer: Layer, c: C, n: nat, m: nat)
    requires n <= m <= |rules|
    ensures LayerAnswers(rules, layer, c, n) <= LayerAnswers(rules, layer, c, m)
    decreases m
  {
    if n < m {
      LayerPrefix(rules, layer, c, n, m - 1);
    }
  }

  lemma {:induction false} LayersPrefix<C>(rules: seq<Rule<C>>, c: C, k: nat, m: nat)
    requires k <= m <= |LAYER_ORDER|
    ensures Answers(rules, c, k) <= Answers(rules, c, m)
    decreases m
  {
    if k < m {
      LayersPrefix(rules, c, k, m - 1);
    }
  }

  /** Stopping at the first force-flatten returns what the full scan would. */
  lemma FlattenDecides(answers: seq<RuleResult>, seen: seq<RuleResult>)
    requires seen <= answers && seen != [] && Best(seen).value.resultType == ForceFlatten
    ensures Decides(answers, BuildResult(Best(seen), Names(seen)))
  {
    var rest := answers[|seen|..];
    assert answers == seen + rest;
    BestOfPrefix(seen, rest, |seen|);
    FlattenStaysBest(answers, |seen|, |answers|);
    BestIsStrictest(seen, |seen|);
    var f := Best(seen).value;
    assert f in answers;
  }

  // ---------------------------------------------------------------- independence of registration order

  /** An answer appears in the full scan exactly when some rule gives it. */
  lemma FullScanHolds<C(!new)>(rules: seq<Rule<C>>, c: C, a: RuleResult)
    ensures a in FullScan(rules, c) <==> exists k :: 0 <= k < |rules| && rules[k].check(c) == Some(a)
  {
    LayerHolds(rules, Market, c, a, |rules|);
    LayerHolds(rules, Account, c, a, |rules|);
    LayerHolds(rules, Strategy, c, a, |rules|);
    LayerHolds(rules, Instrument, c, a, |rules|);
    LayerHolds(rules, Order, c, a, |rules|);
    var scan := FullScan(rules, c);
    assert Answers(rules, c, 0) == [];
    var s1, s2, s3, s4 := Answers(rules, c, 1), Answers(rules, c, 2), Answers(rules, c, 3), Answers(rules, c, 4);
    assert s1 == LayerAnswers(rules, Market, c, |rules|);
    assert s2 == s1 + LayerAnswers(rules, Account, c, |rules|);
    assert s3 == s2 + LayerAnswers(rules, Strategy, c, |rules|);
    assert s4 == s3 + LayerAnswers(rules, Instrument, c, |rules|);
    assert scan == s4 + LayerAnswers(rules, Order, c, |rules|);
    if k :| 0 <= k < |rules| && rules[k].check(c) == Some(a) {
      match rules[k].layer {
        case Market => case Account => case Strategy => case Instrument => case Order =>
      }
    }
  }

  lemma {:induction false} LayerHolds<C>(rules: seq<Rule<C>>, layer: Layer, c: C, a: RuleResult, n: nat)
    requires n <= |rules|
    ensures a in LayerAnswers(rules, layer, c, n) <==>
      exists k :: 0 <= k < n && rules[k].layer == layer && rules[k].check(c) == Some(a)
  {
    if n > 0 {
      LayerHolds(rules, layer, c, a, n - 1);
    }
  }

  /** The decision does not depend on the order in which rules were registered. */
  lemma DecisionIgnoresRegistrationOrder<C(!new)>(rules: seq<Rule<C>>, rules': seq<Rule<C>>, c: C, r: CheckResult,
        r': CheckResult)
    requires multiset(rules) == multiset(rules')
    requires Decides(FullScan(rules, c), r) && Decides(FullScan(rules', c), r')
    ensures r.resultType == r'.resultType
  {
    NoStricter(rules, rules', c, r, r');
    NoStricter(rules', rules, c, r', r);
  }

  lemma NoStricter<C(!new)>(rules: seq<Rule<C>>, rules': seq<Rule<C>>, c: C, r: CheckResult, r': CheckResult)
    requires multiset(rules) == multiset(rules')
    requires Decides(FullScan(rules, c), r) && Decides(FullScan(rules', c), r')
    ensures Priority(r.resultType) <= Priority(r'.resultType)
  {
    var answers, answers' := FullScan(rules, c), FullScan(rules', c);
    if answers != [] {
      var b := Best(answers).value;
      BestIsStrictest(answers, |answers|);
      FullScanHolds(rules, c, b);
      var k :| 0 <= k < |rules| && rules[k].check(c) == Some(b);
      assert rules[k] in multiset(rules');
      assert rules[k] in rules';
      FullScanHolds(rules', c, b);
      assert b in answers';
      BestIsStrictest(answers', |answers'|);
    }
  }

  // ---------------------------------------------------------------- which answer wins

  /** Some rule gives an answer of this kind. */
  ghost predicate Given<C(!new)>(rules: seq<Rule<C>>, c: C, t: ResultType) {
    exists k :: 0 <= k < |rules| && rules[k].check(c).Some? && rules[k].check(c).value.resultType == t
  }

  /** The decision in the order of severity: a flatten if any rule demands one, else a rejection, else a resize, else a
      delay; without any of those the signal is allowed. */
  lemma SeverestWins<C(!new)>(rules: seq<Rule<C>>, c: C, r: CheckResult)
    requires Decides(FullScan(rules, c), r)
    ensures r.resultType ==
      if Given(rules, c, ForceFlatten) then ForceFlatten
      else if Given(rules, c, Reject) then Reject
      else if Given(rules, c, Resize) then Resize
      else if Given(rules, c, Delay) then Delay
      else Allow
  {
    var answers := FullScan(rules, c);
    forall t ensures Given(rules, c, t) ==> answers != [] && Priority(t) <= Priority(r.resultType) {
      if Given(rules, c, t) {
        var k :| 0 <= k < |rules| && rules[k].check(c).Some? && rules[k].check(c).value.resultType == t;
        GivenIsNoStricter(rules, c, r, k);
      }
    }
    if answers != [] {
      BestIsStrictest(answers, |answers|);
      var b := Best(answers).value;
      assert answers[..|answers|] == answers;
      FullScanHolds(rules, c, b);
      assert Given(rules, c, r.resultType);
    }
  }

  lemma GivenIsNoStricter<C(!new)>(rules: seq<Rule<C>>, c: C, r: CheckResult, k: nat)
    requires Decides(FullScan(rules, c), r) && k < |rules| && rules[k].check(c).Some?
    ensures FullScan(rules, c) != [] && Priority(rules[k].check(c).value.resultType) <= Priority(r.resultType)
  {
    var answers, a := FullScan(rules, c), rules[k].check(c).value;
    FullScanHolds(rules, c, a);
    assert a in answers;
    BestIsStrictest(answers, |answers|);
  }
}
