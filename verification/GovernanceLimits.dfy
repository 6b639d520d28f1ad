/** Where the governance chain stops short of what its names promise, and exactly where it does not. */
module GovernanceLimits {
  import opened Wrappers
  import opened Governance
  import opened GovernanceSafety

  // ---------------------------------------------------------------- executions that are still open

  function PendingFor(a: Approval, p: nat): nat {
    if a.source == p && a.decision == Pending then 1 else 0
  }

  /** The pending requests for a proposal. */
  function PendingOf(approvals: seq<Approval>, p: nat): nat {
    if approvals == [] then 0
    else PendingOf(approvals[..|approvals|-1], p) + PendingFor(approvals[|approvals|-1], p)
  }

  /** How often the proposal can be executed on what is approved or asked for already. */
  function Left(s: Store, p: nat): nat {
    if p < |s.proposals| then Ready(s.proposals, p) + PendingOf(s.approvals, p) else 0
  }

  /** The last policy check of the proposal asked for a review, so more requests can be made for it. */
  predicate MayAsk(s: Store, p: nat) {
    p < |s.proposals| && s.proposals[p].policy == Some(ManualReviewRequired)
  }

  lemma PendingAppend(approvals: seq<Approval>, a: Approval, p: nat)
    ensures PendingOf(approvals + [a], p) == PendingOf(approvals, p) + PendingFor(a, p)
  {
    assert (approvals + [a])[..|approvals|] == approvals;
  }

  lemma {:induction false} PendingUpdate(approvals: seq<Approval>, k: nat, a: Approval, p: nat)
    requires k < |approvals|
    ensures PendingOf(approvals[k := a], p) == PendingOf(approvals, p) - PendingFor(approvals[k], p) + PendingFor(a, p)
  {
    var n := |approvals| - 1;
    if k < n {
      PendingUpdate(approvals[..n], k, a, p);
      assert approvals[k := a][..n] == approvals[..n][k := a];
    } else {
      assert approvals[k := a][..n] == approvals[..n];
    }
  }

  lemma {:induction false} SomePending(approvals: seq<Approval>, p: nat) returns (a: nat)
    requires PendingOf(approvals, p) > 0
    ensures a < |approvals| && PendingFor(approvals[a], p) == 1
  {
    if PendingFor(approvals[|approvals|-1], p) == 1 {
      a := |approvals| - 1;
    } else {
      a := SomePending(approvals[..|approvals|-1], p);
    }
  }

  lemma {:induction false} NonePending(approvals: seq<Approval>, p: nat)
    requires forall a :: 0 <= a < |approvals| ==> approvals[a].source != p
    ensures PendingOf(approvals, p) == 0
  {
    if approvals != [] {
      NonePending(approvals[..|approvals|-1], p);
    }
  }

  // ---------------------------------------------------------------- no more than are open

  /** The call cannot have a policy check of the proposal pass or ask for a review. */
  predicate Undisturbed(s: Store, c: Call, p: nat) {
    s.killSwitch || (p < |s.proposals| && !(c.CallEvaluatePolicy? && c.id == p))
  }

  /** Executions done and open. */
  function Total(s: Store, p: nat): nat {
    ExecutionsOf(s.executions, p) + Left(s, p)
  }

  /** No request can be made for the proposal, and the executions done and open do not become more. */
  ghost predicate Exhausts(s: Store, s': Store, p: nat) {
    !MayAsk(s', p) && Total(s', p) <= Total(s, p)
  }

  lemma DecisionExhausts(s: Store, a: nat, approver: string, decision: string, now: int, p: nat)
    requires !MayAsk(s, p)
    ensures Exhausts(s, ProcessDecision(s, a, approver, decision, now).0, p)
  {
    var (s', r) := ProcessDecision(s, a, approver, decision, now);
    if r.Done? {
      PendingUpdate(s.approvals, a, s'.approvals[a], p);
    }
  }

  lemma RequestExhausts(s: Store, q: nat, approvalType: string, expiry: Option<int>, now: int, p: nat)
    requires !MayAsk(s, p)
    ensures Exhausts(s, RequestApproval(s, q, approvalType, expiry, now).0, p)
  {
    var (s', r) := RequestApproval(s, q, approvalType, expiry, now);
    if r.Done? {
      PendingAppend(s.approvals, s'.approvals[|s.approvals|], p);
    }
  }

  lemma ExecutionExhausts(s: Store, q: nat, p: nat)
    requires !MayAsk(s, p)
    ensures Exhausts(s, ExecuteProposal(s, q).0, p)
  {
    var (s', r) := ExecuteProposal(s, q);
    if r.Done? {
      ExecutionsAppend(s.executions, s'.executions[|s.executions|], p);
    }
  }

  lemma CompletionExhausts(s: Store, e: nat, failed: bool, p: nat)
    requires !MayAsk(s, p)
    ensures Exhausts(s, CompleteExecution(s, e, failed).0, p)
  {
    var (s', r) := CompleteExecution(s, e, failed);
    if r.Done? {
      ExecutionUpdate(s.executions, e, s'.executions[e], p);
    }
  }

  /** A pipeline leaves the proposals there are alone. */
  lemma PipelineSpares(s: Store, environment: Environment, kind: string, approver: string, now: int, later: int,
      p: nat)
    requires p < |s.proposals|
    ensures var s' := PipelineResult(s, environment, kind, approver, now, later).0;
      && p < |s'.proposals| && s'.proposals[p] == s.proposals[p]
      && PendingOf(s'.approvals, p) == PendingOf(s.approvals, p)
      && ExecutionsOf(s'.executions, p) == ExecutionsOf(s.executions, p)
  {
    var q, a := |s.proposals|, |s.approvals|;
    PendingAppend(s.approvals, AskedAndApproved(q, kind, approver, now, later), p);
    PendingAppend(s.approvals, Asked(q, kind, now), p);
    ExecutionsAppend(s.executions, Execution(q, Some(a), Executing), p);
    ExecutionsAppend(s.executions, Execution(q, None, Executing), p);
  }

  lemma PipelineExhausts(s: Store, environment: Environment, kind: string, approver: string, now: int, later: int,
      p: nat)
    requires !MayAsk(s, p) && Linked(s) && (s.killSwitch || p < |s.proposals|)
    ensures Exhausts(s, RunPipeline(s, environment, kind, approver, now, later).0, p)
  {
    PipelineEffect(s, environment, kind, approver, now, later);
    if p < |s.proposals| {
      PipelineSpares(s, environment, kind, approver, now, later, p);
    } else {
      NonePending(s.approvals, p);
    }
  }

  lemma CreationExhausts(s: Store, t: nat, kind: string, p: nat)
    requires !MayAsk(s, p) && Linked(s)
    ensures Exhausts(s, CreateProposal(s, t, kind).0, p)
  {
    if p >= |s.proposals| {
      NonePending(s.approvals, p);
    }
  }

  lemma CallExhausts(s: Store, c: Call, p: nat)
    requires !MayAsk(s, p) && Linked(s) && Undisturbed(s, c, p)
    ensures Exhausts(s, Apply(s, c), p)
  {
    match c
    case CallRequestApproval(q, approvalType, expiry, now) => RequestExhausts(s, q, approvalType, expiry, now, p);
    case CallProcessDecision(a, approver, decision, now) => DecisionExhausts(s, a, approver, decision, now, p);
    case CallExecuteProposal(q) => ExecutionExhausts(s, q, p);
    case CallCompleteExecution(e, failed) => CompletionExhausts(s, e, failed, p);
    case CallRunPipeline(environment, kind, approver, now, later) =>
      PipelineExhausts(s, environment, kind, approver, now, later, p);
    case CallCreateProposal(t, kind) => CreationExhausts(s, t, kind, p);
    case _ =>
  }

  /** Calls among which none leaves the proposal disturbed, wherever they lead. */
  ghost predicate AllUndisturbed(s: Store, calls: seq<Call>, p: nat) {
    forall k :: 0 <= k < |calls| ==> Undisturbed(ApplyAll(s, calls[..k]), calls[k], p)
  }

  lemma UndisturbedFront(s: Store, calls: seq<Call>, p: nat)
    requires AllUndisturbed(s, calls, p) && calls != []
    ensures var front := calls[..|calls|-1];
      AllUndisturbed(s, front, p) && Undisturbed(ApplyAll(s, front), calls[|calls|-1], p)
  {
    var last := |calls| - 1;
    assert forall k :: 0 <= k < last ==> calls[..last][..k] == calls[..k];
  }

  lemma {:induction false} CallsExhaust(s: Store, calls: seq<Call>, p: nat)
    requires !MayAsk(s, p) && Linked(s) && AllUndisturbed(s, calls, p)
    ensures Linked(ApplyAll(s, calls)) && Exhausts(s, ApplyAll(s, calls), p)
  {
    if calls != [] {
      var front, last := calls[..|calls|-1], calls[|calls|-1];
      UndisturbedFront(s, calls, p);
      CallsExhaust(s, front, p);
      CallExhausts(ApplyAll(s, front), last, p);
      CallLinked(ApplyAll(s, front), last);
    }
  }

  // ---------------------------------------------------------------- as many as are open

  lemma OneCall(s: Store, c: Call)
    ensures ApplyAll(s, [c]) == Apply(s, c)
  {
    assert [c][..0] == [];
    assert ApplyAll(s, [c][..0]) == s;
  }

  lemma NextCall(s: Store, calls: seq<Call>, c: Call)
    ensures ApplyAll(s, calls + [c]) == Apply(ApplyAll(s, calls), c)
  {
    assert (calls + [c])[..|calls|] == calls;
  }

  lemma {:induction false} ApplyConcat(s: Store, a: seq<Call>, b: seq<Call>)
    ensures ApplyAll(s, a + b) == ApplyAll(ApplyAll(s, a), b)
  {
    if b == [] {
      assert a + b == a;
    } else {
      var n := |b| - 1;
      ApplyConcat(s, a, b[..n]);
      assert a + b == (a + b[..n]) + [b[n]];
      NextCall(s, a + b[..n], b[n]);
    }
  }

  /** Calls that ask, decide and execute: none checks a policy or touches the kill switch. */
  predicate Plain(calls: seq<Call>) {
    forall k :: 0 <= k < |calls| ==>
      calls[k].CallRequestApproval? || calls[k].CallProcessDecision? || calls[k].CallExecuteProposal?
  }

  /** A type longer than those in use. */
  function NewType(approvals: seq<Approval>): string {
    if approvals == [] then "x" else NewType(approvals[..|approvals|-1]) + approvals[|approvals|-1].approvalType
  }

  lemma {:induction false} NewTypeIsLonger(approvals: seq<Approval>)
    ensures |NewType(approvals)| > 0
    ensures forall a :: 0 <= a < |approvals| ==> |approvals[a].approvalType| < |NewType(approvals)|
  {
    if approvals != [] {
      NewTypeIsLonger(approvals[..|approvals|-1]);
    }
  }

  lemma NewTypeIsNew(approvals: seq<Approval>, p: nat)
    ensures !Requested(approvals, p, NewType(approvals))
  {
    NewTypeIsLonger(approvals);
  }

  /** What a round of calls achieves: one more execution, one less of those open at most. */
  ghost predicate OneMore(s: Store, s': Store, p: nat) {
    && p < |s'.proposals| && (MayAsk(s, p) ==> MayAsk(s', p))
    && ExecutionsOf(s'.executions, p) == ExecutionsOf(s.executions, p) + 1
    && Left(s', p) + 1 >= Left(s, p)
  }

  /** Executing a proposal that is ready. */
  lemma ExecutingReady(s: Store, p: nat)
    requires Ready(s.proposals, p) == 1
    ensures var s' := ExecuteProposal(s, p).0;
      && s'.executions == s.executions + [Execution(p, s.proposals[p].approval, Executing)]
      && s'.proposals == s.proposals[p := s.proposals[p].(status := ExecutionPending)]
      && s'.approvals == s.approvals && s'.killSwitch == s.killSwitch && s'.tasks == s.tasks
  {
  }

  lemma RoundOfReady(s: Store, p: nat) returns (c: Call)
    requires Ready(s.proposals, p) == 1
    ensures c == CallExecuteProposal(p) && OneMore(s, Apply(s, c), p)
  {
    c := CallExecuteProposal(p);
    var s' := Apply(s, c);
    ExecutingReady(s, p);
    ExecutionsAppend(s.executions, Execution(p, s.proposals[p].approval, Executing), p);
    assert ExecutionsOf(s'.executions, p) == ExecutionsOf(s.executions, p) + 1;
    assert Left(s', p) + 1 == Left(s, p);
  }

  /** Approving a pending request makes the proposal ready. */
  lemma ApprovingReadies(s: Store, p: nat, a: nat)
    requires p < |s.proposals| && a < |s.approvals| && PendingFor(s.approvals[a], p) == 1
    ensures var s' := Apply(s, CallProcessDecision(a, "", "approved", 0));
      && Ready(s'.proposals, p) == 1 && Left(s', p) + Ready(s.proposals, p) == Left(s, p)
      && s'.executions == s.executions && (MayAsk(s, p) ==> MayAsk(s', p))
  {
    var s' := Apply(s, CallProcessDecision(a, "", "approved", 0));
    PendingUpdate(s.approvals, a, s'.approvals[a], p);
  }

  lemma RoundOfPending(s: Store, p: nat) returns (calls: seq<Call>)
    requires p < |s.proposals| && Ready(s.proposals, p) == 0 && PendingOf(s.approvals, p) > 0
    ensures Plain(calls) && OneMore(s, ApplyAll(s, calls), p)
  {
    var a := SomePending(s.approvals, p);
    var approve := CallProcessDecision(a, "", "approved", 0);
    ApprovingReadies(s, p, a);
    var execute := RoundOfReady(Apply(s, approve), p);
    OneCall(s, approve);
    NextCall(s, [approve], execute);
    calls := [approve] + [execute];
  }

  lemma RoundOfAsking(s: Store, p: nat) returns (calls: seq<Call>)
    requires MayAsk(s, p) && Left(s, p) == 0
    ensures Plain(calls) && OneMore(s, ApplyAll(s, calls), p)
  {
    var request := CallRequestApproval(p, NewType(s.approvals), None, 0);
    NewTypeIsNew(s.approvals, p);
    var s' := Apply(s, request);
    PendingAppend(s.approvals, s'.approvals[|s.approvals|], p);
    var rest := RoundOfPending(s', p);
    OneCall(s, request);
    ApplyConcat(s, [request], rest);
    calls := [request] + rest;
  }

  lemma OneRound(s: Store, p: nat) returns (calls: seq<Call>)
    requires p < |s.proposals| && (MayAsk(s, p) || Left(s, p) > 0)
    ensures Plain(calls) && OneMore(s, ApplyAll(s, calls), p)
  {
    if Ready(s.proposals, p) == 1 {
      var execute := RoundOfReady(s, p);
      OneCall(s, execute);
      calls := [execute];
    } else if PendingOf(s.approvals, p) > 0 {
      calls := RoundOfPending(s, p);
    } else {
      calls := RoundOfAsking(s, p);
    }
  }

  /** `n` more executions of the proposal are open. */
  predicate StillOpen(s: Store, p: nat, n: nat) {
    MayAsk(s, p) || n <= Left(s, p)
  }

  lemma {:induction false} Rounds(s: Store, p: nat, n: nat) returns (calls: seq<Call>)
    requires StillOpen(s, p, n)
    ensures Plain(calls)
    ensures ExecutionsOf(ApplyAll(s, calls).executions, p) == ExecutionsOf(s.executions, p) + n
    decreases n
  {
    if n == 0 {
      calls := [];
      assert ApplyAll(s, calls) == s;
    } else {
      var first := OneRound(s, p);
      var rest := Rounds(ApplyAll(s, first), p, n - 1);
      ApplyConcat(s, first, rest);
      calls := first + rest;
    }
  }

  // ---------------------------------------------------------------- exactly as many as are open

  predicate NeverChecked(calls: seq<Call>, p: nat) {
    forall k :: 0 <= k < |calls| ==> !(calls[k].CallEvaluatePolicy? && calls[k].id == p)
  }

  /** No call switches the kill switch off. */
  predicate NeverSwitchedOff(calls: seq<Call>) {
    forall k :: 0 <= k < |calls| ==> calls[k] != CallSetKillSwitch(false)
  }

  lemma {:induction false} ProposalsStay(s: Store, calls: seq<Call>)
    ensures |ApplyAll(s, calls).proposals| >= |s.proposals|
  {
    DecidedStaysDecided(s, calls);
  }

  lemma NeverCheckedIsUndisturbed(s: Store, calls: seq<Call>, p: nat)
    requires p < |s.proposals| && NeverChecked(calls, p)
    ensures AllUndisturbed(s, calls, p)
  {
    forall k | 0 <= k < |calls| ensures Undisturbed(ApplyAll(s, calls[..k]), calls[k], p) {
      ProposalsStay(s, calls[..k]);
    }
  }

  lemma CallKeepsSwitch(s: Store, c: Call)
    requires s.killSwitch && c != CallSetKillSwitch(false)
    ensures Apply(s, c).killSwitch
  {
    if c.CallRunPipeline? {
      PipelineEffect(s, c.environment, c.kind, c.approver, c.now, c.later);
    }
  }

  lemma {:induction false} SwitchStaysOn(s: Store, calls: seq<Call>)
    requires s.killSwitch && NeverSwitchedOff(calls)
    ensures ApplyAll(s, calls).killSwitch
  {
    if calls != [] {
      SwitchStaysOn(s, calls[..|calls|-1]);
      CallKeepsSwitch(ApplyAll(s, calls[..|calls|-1]), calls[|calls|-1]);
    }
  }

  lemma SwitchedOnIsUndisturbed(s: Store, calls: seq<Call>, p: nat)
    requires s.killSwitch && NeverSwitchedOff(calls)
    ensures AllUndisturbed(s, calls, p)
  {
    forall k | 0 <= k < |calls| ensures Undisturbed(ApplyAll(s, calls[..k]), calls[k], p) {
      SwitchStaysOn(s, calls[..k]);
    }
  }

  /** The calls execute the proposal at least `n` times more. */
  ghost predicate Executes(s: Store, calls: seq<Call>, p: nat, n: nat) {
    ExecutionsOf(ApplyAll(s, calls).executions, p) >= ExecutionsOf(s.executions, p) + n
  }

  lemma ClosedStaysClosed(history: seq<Call>, calls: seq<Call>, p: nat, n: nat)
    requires var s := ApplyAll(EMPTY, history); !StillOpen(s, p, n) && AllUndisturbed(s, calls, p)
    ensures !Executes(ApplyAll(EMPTY, history), calls, p, n)
  {
    HistoryLinked(history);
    CallsExhaust(ApplyAll(EMPTY, history), calls, p);
  }

  /** After any history, a proposal in the table can be executed `n` times more without another policy check of it
      exactly if its last check asked for a review, or if it is approved or has pending requests, `n` in all. So one
      check that asks for a review pays for any number of executions, under a new type of request each. */
  lemma RunsAgainExactlyWhen(history: seq<Call>, p: nat, n: nat)
    requires p < |ApplyAll(EMPTY, history).proposals|
    ensures var s := ApplyAll(EMPTY, history);
      (exists calls :: NeverChecked(calls, p) && Executes(s, calls, p, n)) <==> StillOpen(s, p, n)
  {
    var s := ApplyAll(EMPTY, history);
    if StillOpen(s, p, n) {
      var calls := Rounds(s, p, n);
      assert NeverChecked(calls, p) && Executes(s, calls, p, n);
    } else {
      forall calls | NeverChecked(calls, p) ensures !Executes(s, calls, p, n) {
        NeverCheckedIsUndisturbed(s, calls, p);
        ClosedStaysClosed(history, calls, p, n);
      }
    }
  }

  /** After any history that leaves the kill switch on: the proposal can be executed `n` times more without
      switching it off exactly if its last policy check asked for a review, or if it is approved or has pending
      requests, `n` in all. The switch only stops what comes to a policy check. */
  lemma KillSwitchStopsExactly(history: seq<Call>, p: nat, n: nat)
    requires ApplyAll(EMPTY, history).killSwitch
    ensures var s := ApplyAll(EMPTY, history);
      (exists calls :: NeverSwitchedOff(calls) && Executes(s, calls, p, n)) <==> StillOpen(s, p, n)
  {
    var s := ApplyAll(EMPTY, history);
    if StillOpen(s, p, n) {
      var calls := Rounds(s, p, n);
      assert NeverSwitchedOff(calls) && Executes(s, calls, p, n);
    } else {
      forall calls | NeverSwitchedOff(calls) ensures !Executes(s, calls, p, n) {
        SwitchedOnIsUndisturbed(s, calls, p);
        ClosedStaysClosed(history, calls, p, n);
      }
    }
  }

  // ---------------------------------------------------------------- the environment of a policy check

  /** The environment of the task that made the proposal. */
  function HomeOf(s: Store, p: nat): Environment
    requires p < |s.proposals| && s.proposals[p].task < |s.tasks|
  {
    s.tasks[s.proposals[p].task].environment
  }

  /** Naming another environment than the task's gives the answer the task's would have given exactly if the kill
      switch is on or the kind needs review in both or in neither. */
  lemma NamedEnvironmentMatters(s: Store, p: nat, named: Environment)
    requires p < |s.proposals| && s.proposals[p].task < |s.tasks|
    ensures EvaluatePolicy(s, p, named) == EvaluatePolicy(s, p, HomeOf(s, p)) <==>
      s.killSwitch || (Gated(named, s.proposals[p].kind) <==> Gated(HomeOf(s, p), s.proposals[p].kind))
  {
    var here, there := EvaluatePolicy(s, p, HomeOf(s, p)).0, EvaluatePolicy(s, p, named).0;
    assert here.proposals[p].status == StatusAfter(PolicyFor(s.killSwitch, HomeOf(s, p), s.proposals[p].kind));
    assert there.proposals[p].status == StatusAfter(PolicyFor(s.killSwitch, named, s.proposals[p].kind));
  }

  /** Three calls that execute a proposal of a running live task, of any of the five kinds, without a request
      for approval: the policy is asked about it as a research one. */
  lemma LiveTaskWithoutApproval(s: Store, t: nat, kind: string) returns (calls: seq<Call>)
    requires t < |s.tasks| && s.tasks[t] == Task(Live, TaskRunning) && !s.killSwitch
    requires kind == "pause_open" || kind == "close_only" || kind == "correction" || kind == "risk_param_change"
      || kind == "recovery_action"
    ensures var p := |s.proposals|;
      calls == [CallCreateProposal(t, kind), CallEvaluatePolicy(p, Research), CallExecuteProposal(p)]
    ensures var p, s' := |s.proposals|, ApplyAll(s, calls);
      && s'.proposals == s.proposals + [Proposal(kind, t, ExecutionPending, Some(Pass), None)]
      && s'.executions == s.executions + [Execution(p, None, Executing)]
      && s'.approvals == s.approvals && s'.tasks == s.tasks
  {
    var p := |s.proposals|;
    var create, check, execute := CallCreateProposal(t, kind), CallEvaluatePolicy(p, Research), CallExecuteProposal(p);
    OneCall(s, create);
    NextCall(s, [create], check);
    NextCall(s, [create] + [check], execute);
    calls := [create] + [check] + [execute];
    var drafted := Proposal(kind, t, Drafted, None, None);
    AppendUpdate(s.proposals, drafted, drafted.(policy := Some(Pass), status := Approved));
    AppendUpdate(s.proposals, drafted.(policy := Some(Pass), status := Approved),
      drafted.(policy := Some(Pass), status := ExecutionPending));
  }

  // ---------------------------------------------------------------- expiry

  /** No request was approved after it had expired. */
  ghost predicate Timely(s: Store) {
    forall a :: 0 <= a < |s.approvals| ==> TimelyApproved(s.approvals[a])
  }

  predicate TimelyApproved(a: Approval) {
    a.decision == DecidedApproved && a.decidedAt.Some? ==> a.decidedAt.value <= a.expiresAt
  }

  /** The call approves a pending request after it has expired. */
  predicate ApprovesLate(s: Store, c: Call) {
    match c
    case CallProcessDecision(a, approver, decision, now) =>
      && decision == "approved" && a < |s.approvals|
      && s.approvals[a].decision == Pending && now > s.approvals[a].expiresAt
    case CallRunPipeline(environment, kind, approver, now, later) =>
      PolicyFor(s.killSwitch, environment, kind) == ManualReviewRequired && StandsIn(approver, environment)
      && !Requested(s.approvals, |s.proposals|, AgentType(kind)) && later > EndOfDay(now)
    case _ => false
  }

  lemma DecisionTimely(s: Store, a: nat, approver: string, decision: string, now: int)
    requires Timely(s)
    ensures Timely(ProcessDecision(s, a, approver, decision, now).0) <==>
      !ApprovesLate(s, CallProcessDecision(a, approver, decision, now))
  {
    var (s', r) := ProcessDecision(s, a, approver, decision, now);
    if r.Done? {
      assert TimelyApproved(s'.approvals[a]) <==> !(decision == "approved" && now > s.approvals[a].expiresAt);
      assert forall b :: 0 <= b < |s.approvals| && b != a ==> s'.approvals[b] == s.approvals[b];
    }
  }

  lemma PipelineTimely(s: Store, environment: Environment, kind: string, approver: string, now: int, later: int)
    requires Timely(s)
    ensures Timely(PipelineResult(s, environment, kind, approver, now, later).0) <==>
      !ApprovesLate(s, CallRunPipeline(environment, kind, approver, now, later))
  {
    var s' := PipelineResult(s, environment, kind, approver, now, later).0;
    assert forall a :: 0 <= a < |s.approvals| ==> s'.approvals[a] == s.approvals[a];
    if |s'.approvals| > |s.approvals| {
      assert TimelyApproved(s'.approvals[|s.approvals|]) <==>
          !(StandsIn(approver, environment) && later > EndOfDay(now));
    }
  }

  lemma CallTimely(s: Store, c: Call)
    requires Timely(s)
    ensures Timely(Apply(s, c)) <==> !ApprovesLate(s, c)
  {
    match c
    case CallProcessDecision(a, approver, decision, now) => DecisionTimely(s, a, approver, decision, now);
    case CallRunPipeline(environment, kind, approver, now, later) =>
      PipelineEffect(s, environment, kind, approver, now, later);
      PipelineTimely(s, environment, kind, approver, now, later);
    case _ =>
  }

  lemma CallLate(s: Store, c: Call)
    requires !Timely(s)
    ensures !Timely(Apply(s, c))
  {
    var a :| 0 <= a < |s.approvals| && !TimelyApproved(s.approvals[a]);
    CallSettles(s, c);
    assert Apply(s, c).approvals[a] == s.approvals[a];
  }

  /** No call of the history is a bad one for the store it finds. */
  ghost predicate Never(bad: (Store, Call) -> bool, calls: seq<Call>) {
    forall k :: 0 <= k < |calls| ==> !bad(ApplyAll(EMPTY, calls[..k]), calls[k])
  }

  lemma NeverNext(bad: (Store, Call) -> bool, calls: seq<Call>)
    requires calls != []
    ensures var front := calls[..|calls|-1];
      Never(bad, calls) <==> Never(bad, front) && !bad(ApplyAll(EMPTY, front), calls[|calls|-1])
  {
    var last := |calls| - 1;
    assert forall k :: 0 <= k < last ==> calls[..last][..k] == calls[..k];
  }

  /** No call of the history approves a request that has expired. */
  ghost predicate NeverLate(calls: seq<Call>) {
    Never(ApprovesLate, calls)
  }

  /** The expiry of requests binds nobody: whatever the history, all its approvals are timely exactly if its
      callers made no late one. */
  lemma {:induction false} ExpiryExactlyWhen(calls: seq<Call>)
    ensures Timely(ApplyAll(EMPTY, calls)) <==> NeverLate(calls)
  {
    if calls != [] {
      var before := ApplyAll(EMPTY, calls[..|calls|-1]);
      ExpiryExactlyWhen(calls[..|calls|-1]);
      NeverNext(ApprovesLate, calls);
      if Timely(before) {
        CallTimely(before, calls[|calls|-1]);
      } else {
        CallLate(before, calls[|calls|-1]);
      }
    }
  }

  /** A late approval has all the effect of a timely one: only the time it is recorded with differs. */
  lemma LateApprovalExecutes(s: Store, a: nat, approver: string, now: int)
    requires a < |s.approvals| && s.approvals[a].decision == Pending && s.approvals[a].source < |s.proposals|
    requires now > s.approvals[a].expiresAt
    ensures var p := s.approvals[a].source;
      var timely := ProcessDecision(s, a, approver, "approved", s.approvals[a].expiresAt).0;
      var late := ProcessDecision(s, a, approver, "approved", now).0;
      && late == timely.(approvals := timely.approvals[a := timely.approvals[a].(decidedAt := Some(now))])
      && ExecuteProposal(late, p).1.Done?
  {
  }

  // ---------------------------------------------------------------- one approval for one execution

  /** No proposal has two requests, of whatever types. */
  ghost predicate SingleRequests(s: Store) {
    forall a, b :: 0 <= a < b < |s.approvals| ==> s.approvals[a].source != s.approvals[b].source
  }

  /** The call makes another request for a proposal that already has one. */
  predicate AsksAgain(s: Store, c: Call) {
    c.CallRequestApproval? && RequestApproval(s, c.id, c.approvalType, c.expiry, c.now).1.Done?
    && exists a :: 0 <= a < |s.approvals| && s.approvals[a].source == c.id
  }

  lemma AppendedSingle(s: Store, s': Store, a: Approval)
    requires SingleRequests(s) && s'.approvals == s.approvals + [a]
    ensures SingleRequests(s') <==> !exists b :: 0 <= b < |s.approvals| && s.approvals[b].source == a.source
  {
    assert s'.approvals[|s.approvals|] == a;
    assert forall b :: 0 <= b < |s.approvals| ==> s'.approvals[b] == s.approvals[b];
  }

  lemma RequestSingle(s: Store, p: nat, approvalType: string, expiry: Option<int>, now: int)
    requires SingleRequests(s) && Linked(s)
    ensures SingleRequests(RequestApproval(s, p, approvalType, expiry, now).0) <==>
      !AsksAgain(s, CallRequestApproval(p, approvalType, expiry, now))
  {
    var (s', r) := RequestApproval(s, p, approvalType, expiry, now);
    if r.Done? {
      AppendedSingle(s, s', s'.approvals[|s.approvals|]);
    }
  }

  lemma CallSingle(s: Store, c: Call)
    requires SingleRequests(s) && Linked(s)
    ensures SingleRequests(Apply(s, c)) <==> !AsksAgain(s, c)
  {
    var s' := Apply(s, c);
    match c
    case CallRequestApproval(p, approvalType, expiry, now) => RequestSingle(s, p, approvalType, expiry, now);
    case CallRunPipeline(environment, kind, approver, now, later) =>
      PipelineEffect(s, environment, kind, approver, now, later);
      if |s'.approvals| > |s.approvals| {
        AppendedSingle(s, s', s'.approvals[|s.approvals|]);
      }
    case _ =>
  }

  lemma CallDoubled(s: Store, c: Call)
    requires !SingleRequests(s)
    ensures !SingleRequests(Apply(s, c))
  {
    var a, b :| 0 <= a < b < |s.approvals| && s.approvals[a].source == s.approvals[b].source;
    CallSettles(s, c);
    assert Apply(s, c).approvals[a].source == Apply(s, c).approvals[b].source;
  }

  /** No call of the history asks again. */
  ghost predicate NeverAsksAgain(calls: seq<Call>) {
    Never(AsksAgain, calls)
  }

  /** Every proposal has at most one request exactly if no call of the history asked again, under another type. */
  lemma {:induction false} SingleExactlyWhen(calls: seq<Call>)
    ensures SingleRequests(ApplyAll(EMPTY, calls)) <==> NeverAsksAgain(calls)
  {
    if calls != [] {
      var before := ApplyAll(EMPTY, calls[..|calls|-1]);
      SingleExactlyWhen(calls[..|calls|-1]);
      NeverNext(AsksAgain, calls);
      HistoryLinked(calls[..|calls|-1]);
      if SingleRequests(before) {
        CallSingle(before, calls[|calls|-1]);
      } else {
        CallDoubled(before, calls[|calls|-1]);
      }
    }
  }

  lemma {:induction false} ApprovedOnce(approvals: seq<Approval>, p: nat)
    requires forall a, b :: 0 <= a < b < |approvals| ==> approvals[a].source != approvals[b].source
    ensures ApprovedOf(approvals, p) <= 1
    ensures (forall a :: 0 <= a < |approvals| ==> approvals[a].source != p) ==> ApprovedOf(approvals, p) == 0
  {
    if approvals != [] {
      ApprovedOnce(approvals[..|approvals|-1], p);
    }
  }

  /** Where no call asks again, a proposal is executed at most once more often than a policy check of it passed. */
  lemma SingleRequestSingleExecution(calls: seq<Call>, p: nat)
    requires NeverAsksAgain(calls)
    ensures ExecutionsOf(ApplyAll(EMPTY, calls).executions, p) <= PassesOf(EMPTY, calls, p) + 1
  {
    SingleExactlyWhen(calls);
    EveryHistoryIsPaidFor(calls, p);
    ApprovedOnce(ApplyAll(EMPTY, calls).approvals, p);
  }

  lemma ApprovedOneExecutesOnce(s: Store, p: nat, a: nat, approver: string, now: int)
    requires p < |s.proposals| && a < |s.approvals| && PendingFor(s.approvals[a], p) == 1
    ensures var s' := ExecuteProposal(ProcessDecision(s, a, approver, "approved", now).0, p).0;
      && ExecutionsOf(s'.executions, p) == ExecutionsOf(s.executions, p) + 1
      && |s'.proposals| == |s.proposals| && |s'.approvals| == |s.approvals|
      && forall b :: 0 <= b < |s.approvals| && b != a ==> s'.approvals[b] == s.approvals[b]
  {
    var decided := ProcessDecision(s, a, approver, "approved", now).0;
    ExecutionsAppend(s.executions, Execution(p, decided.proposals[p].approval, Executing), p);
  }

  /** Two requests of different types for one proposal, approved one after the other, execute it twice. A second
      request of the same type is refused. */
  lemma TwoTypesTwoExecutions(s: Store, p: nat, first: string, second: string, approver: string, now: int)
    requires MayAsk(s, p) && !Requested(s.approvals, p, first) && !Requested(s.approvals, p, second)
    ensures var s0 := RequestApproval(s, p, first, None, now).0;
      if first == second then RequestApproval(s0, p, second, None, now) == (s0, Refused(DuplicateRequest))
      else
        var a, s1 := |s.approvals|, RequestApproval(s0, p, second, None, now).0;
        var s2 := ExecuteProposal(ProcessDecision(s1, a, approver, "approved", now).0, p).0;
        var s3 := ExecuteProposal(ProcessDecision(s2, a + 1, approver, "approved", now).0, p).0;
        ExecutionsOf(s3.executions, p) == ExecutionsOf(s.executions, p) + 2
  {
    var a, s0 := |s.approvals|, RequestApproval(s, p, first, None, now).0;
    assert s0.approvals[a].source == p && s0.approvals[a].approvalType == first;
    assert forall b :: 0 <= b < a ==> s0.approvals[b] == s.approvals[b];
    if first != second {
      var s1 := RequestApproval(s0, p, second, None, now).0;
      assert PendingFor(s1.approvals[a], p) == 1 && PendingFor(s1.approvals[a+1], p) == 1;
      ApprovedOneExecutesOnce(s1, p, a, approver, now);
      ApprovedOneExecutesOnce(ExecuteProposal(ProcessDecision(s1, a, approver, "approved", now).0, p).0, p, a + 1,
        approver, now);
    }
  }
}
