/** What every history of governance calls keeps. */
module GovernanceSafety {
  import opened Wrappers
  import opened Governance
  import Bars

  // ---------------------------------------------------------------- the pipeline as one step

  lemma AppendUpdate<T>(ts: seq<T>, t: T, u: T)
    ensures (ts + [t])[|ts| := u] == ts + [u]
  {
  }

  /** What one run of the pipeline adds to the tables: it rejects, asks for approval or executes, and it executes
      exactly if the policy passes or a named approver may stand in. It would be refused only if there were a
      request for its proposal before there is the proposal. */
  lemma PipelineEffect(s: Store, environment: Environment, kind: string, approver: string, now: int, later: int)
    ensures RunPipeline(s, environment, kind, approver, now, later)
         == PipelineResult(s, environment, kind, approver, now, later)
  {
    var t, p, a := |s.tasks|, |s.proposals|, |s.approvals|;
    var s1 := s.(tasks := s.tasks + [Task(environment, TaskRunning)]);
    AppendUpdate(s.tasks, Task(environment, TaskCreated), Task(environment, TaskRunning));
    assert StartTask(CreateTask(s, environment).0, t) == (s1, Done(t));
    var s2 := s1.(proposals := s.proposals + [Proposal(kind, t, Drafted, None, None)]);
    assert CreateProposal(s1, t, kind) == (s2, Done(p));
    AfterPolicyEffect(s, EvaluatePolicy(s2, p, environment).0, environment, kind, approver, now, later) by {
      EvaluateEffect(s2, s.proposals, p, kind, t, environment);
    }
  }

  function NewProposal(kind: string, t: nat, status: ProposalStatus, policy: PolicyResult,
        approval: Option<nat>): Proposal
  {
    Proposal(kind, t, status, Some(policy), approval)
  }

  function StatusAfter(result: PolicyResult): ProposalStatus {
    match result
    case Fail => PolicyRejected
    case ManualReviewRequired => PendingApproval
    case Pass => Approved
  }

  lemma EvaluateEffect(s: Store, earlier: seq<Proposal>, p: nat, kind: string, t: nat, environment: Environment)
    requires s.proposals == earlier + [Proposal(kind, t, Drafted, None, None)] && p == |earlier|
    ensures var result := PolicyFor(s.killSwitch, environment, kind);
      EvaluatePolicy(s, p, environment).0 == s.(
        proposals := earlier + [NewProposal(kind, t, StatusAfter(result), result, None)])
  {
    var result := PolicyFor(s.killSwitch, environment, kind);
    AppendUpdate(earlier, Proposal(kind, t, Drafted, None, None),
      NewProposal(kind, t, StatusAfter(result), result, None));
  }

  /** The request a pipeline makes, pending or approved at once. */
  function Asked(p: nat, kind: string, now: int): Approval {
    Approval(p, AgentType(kind), "", Pending, EndOfDay(now), None)
  }

  function AskedAndApproved(p: nat, kind: string, approver: string, now: int, later: int): Approval {
    Approval(p, AgentType(kind), approver, DecidedApproved, EndOfDay(now), Some(later))
  }

  /** A named approver stands in outside live trading. */
  predicate StandsIn(approver: string, environment: Environment) {
    approver != "" && environment != Live
  }

  function PipelineResult(s: Store, environment: Environment, kind: string, approver: string, now: int, later: int)
    : (Store, PipelineReply)
  {
    var t, p, a, e := |s.tasks|, |s.proposals|, |s.approvals|, |s.executions|;
    match PolicyFor(s.killSwitch, environment, kind)
    case Fail => (
      s.(tasks := s.tasks + [Task(environment, TaskFailed)],
         proposals := s.proposals + [NewProposal(kind, t, PolicyRejected, Fail, None)]),
      RejectedProposal(p))
    case Pass => (
      s.(tasks := s.tasks + [Task(environment, TaskCompleted)],
         proposals := s.proposals + [NewProposal(kind, t, ExecutionPending, Pass, None)],
         executions := s.executions + [Execution(p, None, Executing)]),
      Ran(e))
    case ManualReviewRequired =>
      if Requested(s.approvals, p, AgentType(kind)) then (
        s.(tasks := s.tasks + [Task(environment, TaskRunning)],
           proposals := s.proposals + [NewProposal(kind, t, PendingApproval, ManualReviewRequired, None)]),
        PipelineRefused(DuplicateRequest))
      else if StandsIn(approver, environment) then (
        s.(tasks := s.tasks + [Task(environment, TaskCompleted)],
           proposals := s.proposals + [NewProposal(kind, t, ExecutionPending, ManualReviewRequired, Some(a))],
           approvals := s.approvals + [AskedAndApproved(p, kind, approver, now, later)],
           executions := s.executions + [Execution(p, Some(a), Executing)]),
        Ran(e))
      else (
        s.(tasks := s.tasks + [Task(environment, TaskWaitingTool)],
           proposals := s.proposals + [NewProposal(kind, t, PendingApproval, ManualReviewRequired, Some(a))],
           approvals := s.approvals + [Asked(p, kind, now)]),
        AwaitsApproval(a))
  }

  /** From the store after the policy check to the end of the pipeline. */
  lemma AfterPolicyEffect(s: Store, mid: Store, environment: Environment, kind: string, approver: string,
      now: int, later: int)
    requires var result := PolicyFor(s.killSwitch, environment, kind);
      mid == s.(
        tasks := s.tasks + [Task(environment, TaskRunning)],
        proposals := s.proposals + [NewProposal(kind, |s.tasks|, StatusAfter(result), result, None)])
    ensures AfterPolicy(mid, |s.tasks|, |s.proposals|, environment, approver, now, later)
         == PipelineResult(s, environment, kind, approver, now, later)
  {
    var t, p, a := |s.tasks|, |s.proposals|, |s.approvals|;
    AppendUpdate(s.tasks, Task(environment, TaskRunning), Task(environment, TaskFailed));
    AppendUpdate(s.tasks, Task(environment, TaskRunning), Task(environment, TaskCompleted));
    AppendUpdate(s.tasks, Task(environment, TaskRunning), Task(environment, TaskWaitingTool));
    match PolicyFor(s.killSwitch, environment, kind)
    case Fail =>
    case Pass =>
      AppendUpdate(s.proposals, NewProposal(kind, t, Approved, Pass, None),
        NewProposal(kind, t, ExecutionPending, Pass, None));
    case ManualReviewRequired =>
      ManualEffect(s, mid, environment, kind, approver, now, later);
  }

  lemma ManualEffect(s: Store, mid: Store, environment: Environment, kind: string, approver: string,
      now: int, later: int)
    requires PolicyFor(s.killSwitch, environment, kind) == ManualReviewRequired
    requires mid == s.(
        tasks := s.tasks + [Task(environment, TaskRunning)],
        proposals := s.proposals + [NewProposal(kind, |s.tasks|, PendingApproval, ManualReviewRequired, None)])
    ensures AfterPolicy(mid, |s.tasks|, |s.proposals|, environment, approver, now, later)
         == PipelineResult(s, environment, kind, approver, now, later)
  {
    var t, p, a := |s.tasks|, |s.proposals|, |s.approvals|;
    var asked := NewProposal(kind, t, PendingApproval, ManualReviewRequired, Some(a));
    AppendUpdate(s.proposals, NewProposal(kind, t, PendingApproval, ManualReviewRequired, None), asked);
    AppendUpdate(s.tasks, Task(environment, TaskRunning), Task(environment, TaskWaitingTool));
    if Requested(s.approvals, p, AgentType(kind)) {
      return;
    }
    var waiting := s.(
      tasks := s.tasks + [Task(environment, TaskWaitingTool)],
      proposals := s.proposals + [asked],
      approvals := s.approvals + [Asked(p, kind, now)]);
    assert WaitTask(RequestApproval(mid, p, AgentType(kind), None, now).0, t) == (waiting, Done(t));
    if StandsIn(approver, environment) {
      AppendUpdate(s.approvals, Asked(p, kind, now), AskedAndApproved(p, kind, approver, now, later));
      AppendUpdate(s.proposals, asked, asked.(status := Approved));
      AppendUpdate(s.proposals, asked.(status := Approved), asked.(status := ExecutionPending));
      AppendUpdate(s.tasks, Task(environment, TaskWaitingTool), Task(environment, TaskCompleted));
      var decided := waiting.(
        approvals := s.approvals + [AskedAndApproved(p, kind, approver, now, later)],
        proposals := s.proposals + [asked.(status := Approved)]);
      assert ProcessDecision(waiting, a, approver, "approved", later) == (decided, Done(a));
    }
  }

  /** Every request is for a proposal that exists. */
  ghost predicate Linked(s: Store) {
    forall a :: 0 <= a < |s.approvals| ==> s.approvals[a].source < |s.proposals|
  }

  lemma PipelineLinked(s: Store, environment: Environment, kind: string, approver: string, now: int, later: int)
    requires Linked(s)
    ensures Linked(PipelineResult(s, environment, kind, approver, now, later).0)
  {
  }

  lemma CallLinked(s: Store, c: Call)
    requires Linked(s)
    ensures Linked(Apply(s, c))
  {
    if c.CallRunPipeline? {
      PipelineEffect(s, c.environment, c.kind, c.approver, c.now, c.later);
      PipelineLinked(s, c.environment, c.kind, c.approver, c.now, c.later);
    }
  }

  lemma {:induction false} HistoryLinked(calls: seq<Call>)
    ensures Linked(ApplyAll(EMPTY, calls))
  {
    if calls != [] {
      HistoryLinked(calls[..|calls|-1]);
      CallLinked(ApplyAll(EMPTY, calls[..|calls|-1]), calls[|calls|-1]);
    }
  }

  /** After every history the pipeline goes through to one of its outcomes. */
  lemma PipelineNeverRefused(calls: seq<Call>, environment: Environment, kind: string, approver: string,
      now: int, later: int)
    ensures !RunPipeline(ApplyAll(EMPTY, calls), environment, kind, approver, now, later).1.PipelineRefused?
  {
    HistoryLinked(calls);
    PipelineEffect(ApplyAll(EMPTY, calls), environment, kind, approver, now, later);
  }

  /** The live pipeline never executes a proposal of one of the five gated kinds, whatever approver is named; it leaves
      a pending request. */
  lemma LivePipelineNeverExecutesGated(s: Store, kind: string, approver: string, now: int, later: int)
    requires kind == "pause_open" || kind == "close_only" || kind == "correction" || kind == "risk_param_change"
      || kind == "recovery_action"
    ensures var (s', r) := RunPipeline(s, Live, kind, approver, now, later);
      && s'.executions == s.executions
      && (r.AwaitsApproval? ==> s'.approvals == s.approvals + [Asked(|s.proposals|, kind, now)])
      && (Linked(s) ==> (r.AwaitsApproval? <==> !s.killSwitch))
  {
    PipelineEffect(s, Live, kind, approver, now, later);
  }

  /** After every history that leaves the kill switch off, the pipeline executes at once exactly if: live, the kind is
      none of the five, whatever approver is named; on paper, an approver is named or the kind is none of the three;
      in research and backtest always. If it does not, a pending request is left, and else one execution. */
  lemma PipelineExecutesExactlyWhen(calls: seq<Call>, environment: Environment, kind: string, approver: string,
        now: int, later: int)
    requires !ApplyAll(EMPTY, calls).killSwitch
    ensures var s := ApplyAll(EMPTY, calls);
      var (s', r) := RunPipeline(s, environment, kind, approver, now, later);
      && (r.Ran? <==>
            match environment
            case Live => kind != "pause_open" && kind != "close_only" && kind != "correction"
                         && kind != "risk_param_change" && kind != "recovery_action"
            case Paper => approver != "" || (kind != "close_only" && kind != "risk_param_change"
                                             && kind != "recovery_action")
            case Research => true
            case Backtest => true)
      && (r.Ran? ==> |s'.executions| == |s.executions| + 1 && s'.executions[..|s.executions|] == s.executions)
      && (!r.Ran? ==> r == AwaitsApproval(|s.approvals|) && s'.executions == s.executions
                      && s'.approvals == s.approvals + [Asked(|s.proposals|, kind, now)])
  {
    var s := ApplyAll(EMPTY, calls);
    HistoryLinked(calls);
    PipelineEffect(s, environment, kind, approver, now, later);
    PassesByName(environment, kind);
    ResultRuns(s, environment, kind, approver, now, later);
  }

  lemma PassesByName(environment: Environment, kind: string)
    ensures PolicyFor(false, environment, kind) != Fail
    ensures PolicyFor(false, environment, kind) == Pass <==>
      match environment
      case Live => kind != "pause_open" && kind != "close_only" && kind != "correction"
                   && kind != "risk_param_change" && kind != "recovery_action"
      case Paper => kind != "close_only" && kind != "risk_param_change" && kind != "recovery_action"
      case Research => true
      case Backtest => true
  {
  }

  lemma ResultRuns(s: Store, environment: Environment, kind: string, approver: string, now: int, later: int)
    requires Linked(s) && !s.killSwitch
    ensures var (s', r) := PipelineResult(s, environment, kind, approver, now, later);
      && (r.Ran? <==> PolicyFor(false, environment, kind) == Pass || (approver != "" && environment != Live))
      && (r.Ran? ==> |s'.executions| == |s.executions| + 1 && s'.executions[..|s.executions|] == s.executions)
      && (!r.Ran? ==> r == AwaitsApproval(|s.approvals|) && s'.executions == s.executions
                      && s'.approvals == s.approvals + [Asked(|s.proposals|, kind, now)])
  {
    assert !Requested(s.approvals, |s.proposals|, AgentType(kind));
  }

  /** What the kill switch was last set to; it starts off. */
  function LastSwitch(calls: seq<Call>): bool {
    if calls == [] then false
    else
      match calls[|calls|-1]
      case CallSetKillSwitch(active) => active
      case _ => LastSwitch(calls[..|calls|-1])
  }

  lemma CallKeepsSwitch(s: Store, c: Call)
    ensures Apply(s, c).killSwitch == if c.CallSetKillSwitch? then c.active else s.killSwitch
  {
    if c.CallRunPipeline? {
      PipelineEffect(s, c.environment, c.kind, c.approver, c.now, c.later);
    }
  }

  /** Only those who set the kill switch change it. */
  lemma {:induction false} KillSwitchIsAsLastSet(calls: seq<Call>)
    ensures ApplyAll(EMPTY, calls).killSwitch == LastSwitch(calls)
  {
    if calls != [] {
      KillSwitchIsAsLastSet(calls[..|calls|-1]);
      CallKeepsSwitch(ApplyAll(EMPTY, calls[..|calls|-1]), calls[|calls|-1]);
    }
  }

  /** What single steps demand and leave. */
  lemma StepsExactlyWhen(s: Store, id: nat, kind: string, failed: bool)
    ensures StartTask(s, id).1.Done? <==> id < |s.tasks| && s.tasks[id].taskStatus == TaskCreated
    ensures CreateProposal(s, id, kind).1.Done? <==>
      id < |s.tasks| && (s.tasks[id].taskStatus == TaskRunning || s.tasks[id].taskStatus == TaskWaitingTool)
    ensures ExecuteProposal(s, id).1.Done? <==> id < |s.proposals| && s.proposals[id].status == Approved
    ensures CompleteExecution(s, id, failed).1.Done? <==>
      id < |s.executions| && s.executions[id].executionStatus == Executing
    ensures var (s', r) := CompleteExecution(s, id, failed);
      r.Done? ==> s'.executions[id].executionStatus == if failed then ExecutionFailedFinally else ExecutionCompleted
  {
  }

  /** A pending request takes four of the five decisions there are, by name; its proposal is approved or rejected with
      it and else left, and the request keeps who decided and when. */
  lemma DecisionByName(s: Store, a: nat, approver: string, decision: string, now: int)
    requires a < |s.approvals| && s.approvals[a].decision == Pending
    ensures var (s', r) := ProcessDecision(s, a, approver, decision, now); var p := s.approvals[a].source;
      && (r.Done? <==>
            decision == "approved" || decision == "rejected" || decision == "expired" || decision == "canceled")
      && (r.Done? ==>
            && s'.approvals[a].decision == (
                 if decision == "approved" then DecidedApproved else if decision == "rejected" then DecidedRejected
                 else if decision == "expired" then DecidedExpired else DecidedCanceled)
            && s'.approvals[a].approver == approver && s'.approvals[a].decidedAt == Some(now)
            && (p < |s.proposals| ==>
                  s'.proposals[p].status == if decision == "approved" then Approved
                                            else if decision == "rejected" then Rejected else s.proposals[p].status))
      && (!r.Done? ==> s' == s)
  {
  }

  /** Unless an expiry is given, a request made at `now` lapses with the last second of that day. */
  lemma LapsesWithTheDay(s: Store, p: nat, approvalType: string, expiry: Option<int>, now: int)
    requires RequestApproval(s, p, approvalType, expiry, now).1.Done?
    ensures var request := RequestApproval(s, p, approvalType, expiry, now).0.approvals[|s.approvals|];
      && request.decision == Pending && request.source == p && request.approvalType == approvalType
      && (expiry.Some? ==> request.expiresAt == expiry.value)
      && (expiry.None? ==> now <= request.expiresAt && Bars.DateOf(request.expiresAt) == Bars.DateOf(now)
                           && Bars.DateOf(request.expiresAt + 1) == Bars.DateOf(now) + 1)
  {
  }

  /** With the kill switch on, the pipeline executes nothing in any environment. */
  lemma KillSwitchStopsPipeline(s: Store, environment: Environment, kind: string, approver: string, now: int,
        later: int)
    requires s.killSwitch
    ensures var (s', r) := RunPipeline(s, environment, kind, approver, now, later);
      r == RejectedProposal(|s.proposals|) && s'.executions == s.executions && s'.approvals == s.approvals
  {
    PipelineEffect(s, environment, kind, approver, now, later);
  }

  // ---------------------------------------------------------------- counting

  function ExecutionsOf(executions: seq<Execution>, p: nat): nat {
    if executions == [] then 0
    else ExecutionsOf(executions[..|executions|-1], p) + if executions[|executions|-1].proposal == p then 1 else 0
  }

  /** The approved requests of a proposal. */
  function ApprovedOf(approvals: seq<Approval>, p: nat): nat {
    if approvals == [] then 0
    else ApprovedOf(approvals[..|approvals|-1], p) + ApprovedFor(approvals[|approvals|-1], p)
  }

  function ApprovedFor(a: Approval, p: nat): nat {
    if a.source == p && a.decision == DecidedApproved then 1 else 0
  }

  /** Whether the proposal may be executed now. */
  function Ready(proposals: seq<Proposal>, p: nat): nat {
    if p < |proposals| && proposals[p].status == Approved then 1 else 0
  }

  lemma ExecutionsAppend(executions: seq<Execution>, e: Execution, p: nat)
    ensures ExecutionsOf(executions + [e], p) == ExecutionsOf(executions, p) + if e.proposal == p then 1 else 0
  {
    assert (executions + [e])[..|executions|] == executions;
  }

  lemma ApprovedAppend(approvals: seq<Approval>, a: Approval, p: nat)
    ensures ApprovedOf(approvals + [a], p) == ApprovedOf(approvals, p) + ApprovedFor(a, p)
  {
    assert (approvals + [a])[..|approvals|] == approvals;
  }

  lemma {:induction false} ApprovedUpdate(approvals: seq<Approval>, k: nat, a: Approval, p: nat)
    requires k < |approvals|
    ensures ApprovedOf(approvals[k := a], p)
        == ApprovedOf(approvals, p) - ApprovedFor(approvals[k], p) + ApprovedFor(a, p)
  {
    var n := |approvals| - 1;
    if k < n {
      ApprovedUpdate(approvals[..n], k, a, p);
      assert approvals[k := a][..n] == approvals[..n][k := a];
    } else {
      assert approvals[k := a][..n] == approvals[..n];
    }
  }

  lemma {:induction false} ExecutionUpdate(executions: seq<Execution>, k: nat, e: Execution, p: nat)
    requires k < |executions| && e.proposal == executions[k].proposal
    ensures ExecutionsOf(executions[k := e], p) == ExecutionsOf(executions, p)
  {
    var n := |executions| - 1;
    if k < n {
      ExecutionUpdate(executions[..n], k, e, p);
      assert executions[k := e][..n] == executions[..n][k := e];
    } else {
      assert executions[k := e][..n] == executions[..n];
    }
  }

  // ---------------------------------------------------------------- what pays for an execution

  /** `c` asks the policy about proposal `p`, which a pipeline does as it makes the proposal. */
  predicate Asks(s: Store, c: Call, p: nat) {
    || (c.CallEvaluatePolicy? && c.id == p && p < |s.proposals|)
    || (c.CallRunPipeline? && p == |s.proposals|)
  }

  function KindAsked(s: Store, c: Call, p: nat): string
    requires Asks(s, c, p)
  {
    if c.CallRunPipeline? then c.kind else s.proposals[p].kind
  }

  /** How many policy checks of the proposal the call passes. */
  function PassesNow(s: Store, c: Call, p: nat): nat {
    if Asks(s, c, p) && PolicyFor(s.killSwitch, c.environment, KindAsked(s, c, p)) == Pass then 1 else 0
  }

  /** How many policy checks of the proposal passed in a history of calls. */
  function PassesOf(s: Store, calls: seq<Call>, p: nat): nat {
    if calls == [] then 0
    else
      var front := calls[..|calls|-1];
      PassesOf(s, front, p) + PassesNow(ApplyAll(s, front), calls[|calls|-1], p)
  }

  /** Executions of the proposal, and its being ready for one, less the approved requests for it. */
  function Unpaid(s: Store, p: nat): int {
    ExecutionsOf(s.executions, p) + Ready(s.proposals, p) - ApprovedOf(s.approvals, p)
  }

  lemma DecisionPays(s: Store, a: nat, approver: string, decision: string, now: int, p: nat)
    ensures Unpaid(ProcessDecision(s, a, approver, decision, now).0, p) <= Unpaid(s, p)
  {
    var (s', r) := ProcessDecision(s, a, approver, decision, now);
    if r.Done? {
      ApprovedUpdate(s.approvals, a, s'.approvals[a], p);
    }
  }

  lemma ExecutePays(s: Store, q: nat, p: nat)
    ensures Unpaid(ExecuteProposal(s, q).0, p) <= Unpaid(s, p)
  {
    var (s', r) := ExecuteProposal(s, q);
    if r.Done? {
      ExecutionsAppend(s.executions, s'.executions[|s.executions|], p);
    }
  }

  lemma CompletePays(s: Store, e: nat, failed: bool, p: nat)
    ensures Unpaid(CompleteExecution(s, e, failed).0, p) == Unpaid(s, p)
  {
    var (s', r) := CompleteExecution(s, e, failed);
    if r.Done? {
      ExecutionUpdate(s.executions, e, s'.executions[e], p);
    }
  }

  lemma RequestPays(s: Store, q: nat, approvalType: string, expiry: Option<int>, now: int, p: nat)
    ensures Unpaid(RequestApproval(s, q, approvalType, expiry, now).0, p) == Unpaid(s, p)
  {
    var (s', r) := RequestApproval(s, q, approvalType, expiry, now);
    if r.Done? {
      ApprovedAppend(s.approvals, s'.approvals[|s.approvals|], p);
    }
  }

  lemma PipelinePays(s: Store, environment: Environment, kind: string, approver: string, now: int, later: int, p: nat)
    ensures Unpaid(PipelineResult(s, environment, kind, approver, now, later).0, p) <= Unpaid(s, p)
      + PassesNow(s, CallRunPipeline(environment, kind, approver, now, later), p)
  {
    var q, a := |s.proposals|, |s.approvals|;
    match PolicyFor(s.killSwitch, environment, kind)
    case Fail =>
    case Pass =>
      ExecutionsAppend(s.executions, Execution(q, None, Executing), p);
    case ManualReviewRequired =>
      if StandsIn(approver, environment) {
        ApprovedAppend(s.approvals, AskedAndApproved(q, kind, approver, now, later), p);
        ExecutionsAppend(s.executions, Execution(q, Some(a), Executing), p);
      } else {
        ApprovedAppend(s.approvals, Asked(q, kind, now), p);
      }
  }

  /** From any store, a call makes executions, or readiness for one, only as far as it passes a policy check or
      approves a request. */
  lemma CallPays(s: Store, c: Call, p: nat)
    ensures Unpaid(Apply(s, c), p) <= Unpaid(s, p) + PassesNow(s, c, p)
  {
    match c
    case CallRequestApproval(q, approvalType, expiry, now) => RequestPays(s, q, approvalType, expiry, now, p);
    case CallProcessDecision(a, approver, decision, now) => DecisionPays(s, a, approver, decision, now, p);
    case CallExecuteProposal(q) => ExecutePays(s, q, p);
    case CallCompleteExecution(e, failed) => CompletePays(s, e, failed, p);
    case CallRunPipeline(environment, kind, approver, now, later) =>
      PipelineEffect(s, environment, kind, approver, now, later);
      PipelinePays(s, environment, kind, approver, now, later, p);
    case _ =>
  }

  // ---------------------------------------------------------------- over every history

  lemma {:induction false} HistoryPays(s: Store, calls: seq<Call>, p: nat)
    ensures Unpaid(ApplyAll(s, calls), p) <= Unpaid(s, p) + PassesOf(s, calls, p)
  {
    if calls != [] {
      var front := calls[..|calls|-1];
      HistoryPays(s, front, p);
      CallPays(ApplyAll(s, front), calls[|calls|-1], p);
    }
  }

  /** From any store on, a proposal is executed at most once more for its being approved at the start, once for
      every policy check of it that passes and once for every request for it that is approved. */
  lemma EveryExecutionIsPaidFor(s: Store, calls: seq<Call>, p: nat)
    ensures var s' := ApplyAll(s, calls);
      ExecutionsOf(s'.executions, p) - ExecutionsOf(s.executions, p)
      <= Ready(s.proposals, p) + PassesOf(s, calls, p) + ApprovedOf(s'.approvals, p) - ApprovedOf(s.approvals, p)
  {
    HistoryPays(s, calls, p);
  }

  /** In every history of calls a proposal is executed at most as often as a policy check of it passed or a
      request for it was approved; one still unused is needed at the moment it is executed. */
  lemma EveryHistoryIsPaidFor(calls: seq<Call>, p: nat)
    ensures var s := ApplyAll(EMPTY, calls);
      && ExecutionsOf(s.executions, p) <= PassesOf(EMPTY, calls, p) + ApprovedOf(s.approvals, p)
      && (ExecuteProposal(s, p).1.Done?
          ==> ExecutionsOf(s.executions, p) < PassesOf(EMPTY, calls, p) + ApprovedOf(s.approvals, p))
  {
    HistoryPays(EMPTY, calls, p);
  }

  /** Every call that asks the policy about the proposal names an environment in which its kind needs review. */
  ghost predicate AskedWhereGated(s: Store, calls: seq<Call>, p: nat, kind: string) {
    forall k :: 0 <= k < |calls| && Asks(ApplyAll(s, calls[..k]), calls[k], p) ==> Gated(calls[k].environment, kind)
  }

  lemma AskedKind(s: Store, c: Call, p: nat)
    requires Asks(s, c, p)
    ensures p < |Apply(s, c).proposals| && Apply(s, c).proposals[p].kind == KindAsked(s, c, p)
  {
    if c.CallRunPipeline? {
      PipelineEffect(s, c.environment, c.kind, c.approver, c.now, c.later);
    }
  }

  lemma {:induction false} NoPasses(s: Store, calls: seq<Call>, p: nat, kind: string)
    requires AskedWhereGated(s, calls, p, kind)
    requires p < |ApplyAll(s, calls).proposals| ==> ApplyAll(s, calls).proposals[p].kind == kind
    ensures PassesOf(s, calls, p) == 0
  {
    if calls != [] {
      var last := |calls| - 1;
      var before := ApplyAll(s, calls[..last]);
      assert forall k :: 0 <= k < last ==> calls[..last][..k] == calls[..k];
      CallSettles(before, calls[last]);
      NoPasses(s, calls[..last], p, kind);
      if Asks(before, calls[last], p) {
        AskedKind(before, calls[last], p);
      }
    }
  }

  /** A proposal about which the policy is only asked for environments where its kind needs review is executed at
      most once for every approved request. */
  lemma GatedNeedsApproval(calls: seq<Call>, p: nat, kind: string)
    requires p < |ApplyAll(EMPTY, calls).proposals| && ApplyAll(EMPTY, calls).proposals[p].kind == kind
    requires AskedWhereGated(EMPTY, calls, p, kind)
    ensures ExecutionsOf(ApplyAll(EMPTY, calls).executions, p) <= ApprovedOf(ApplyAll(EMPTY, calls).approvals, p)
  {
    EveryHistoryIsPaidFor(calls, p);
    NoPasses(EMPTY, calls, p, kind);
  }

  /** So is a proposal of one of the five kinds about which the policy is only asked for live trading, and one of the
      three kinds about which it is only asked for live or paper trading. */
  lemma GatedByNameNeedsApproval(calls: seq<Call>, p: nat, kind: string)
    requires p < |ApplyAll(EMPTY, calls).proposals| && ApplyAll(EMPTY, calls).proposals[p].kind == kind
    requires kind == "pause_open" || kind == "close_only" || kind == "correction" || kind == "risk_param_change"
      || kind == "recovery_action"
    requires forall k :: 0 <= k < |calls| && Asks(ApplyAll(EMPTY, calls[..k]), calls[k], p) ==>
      calls[k].environment == Live
        || (calls[k].environment == Paper && kind != "pause_open" && kind != "correction")
    ensures ExecutionsOf(ApplyAll(EMPTY, calls).executions, p) <= ApprovedOf(ApplyAll(EMPTY, calls).approvals, p)
  {
    GatedNeedsApproval(calls, p, kind);
  }

  // ---------------------------------------------------------------- requests are deduplicated by type

  /** No proposal has two requests of one type. */
  ghost predicate TypesDistinct(approvals: seq<Approval>) {
    forall a, b :: 0 <= a < b < |approvals| && approvals[a].source == approvals[b].source
      ==> approvals[a].approvalType != approvals[b].approvalType
  }

  lemma AppendKeepsDistinct(approvals: seq<Approval>, a: Approval)
    requires TypesDistinct(approvals) && !Requested(approvals, a.source, a.approvalType)
    ensures TypesDistinct(approvals + [a])
  {
  }

  lemma DecisionKeepsTypesDistinct(s: Store, a: nat, approver: string, decision: string, now: int)
    requires TypesDistinct(s.approvals)
    ensures TypesDistinct(ProcessDecision(s, a, approver, decision, now).0.approvals)
  {
    DecisionSettles(s, a, approver, decision, now);
  }

  lemma RequestKeepsTypesDistinct(s: Store, q: nat, approvalType: string, expiry: Option<int>, now: int)
    requires TypesDistinct(s.approvals)
    ensures TypesDistinct(RequestApproval(s, q, approvalType, expiry, now).0.approvals)
  {
    var (s', r) := RequestApproval(s, q, approvalType, expiry, now);
    if r.Done? {
      AppendKeepsDistinct(s.approvals, s'.approvals[|s.approvals|]);
    }
  }

  lemma CallKeepsTypesDistinct(s: Store, c: Call)
    requires TypesDistinct(s.approvals)
    ensures TypesDistinct(Apply(s, c).approvals)
  {
    match c
    case CallRequestApproval(q, approvalType, expiry, now) =>
      RequestKeepsTypesDistinct(s, q, approvalType, expiry, now);
    case CallProcessDecision(a, approver, decision, now) => DecisionKeepsTypesDistinct(s, a, approver, decision, now);
    case CallRunPipeline(environment, kind, approver, now, later) =>
      PipelineEffect(s, environment, kind, approver, now, later);
      if |Apply(s, c).approvals| > |s.approvals| {
        AppendKeepsDistinct(s.approvals, Apply(s, c).approvals[|s.approvals|]);
      }
    case _ =>
  }

  /** In every history no proposal ever gets a second request of the same type. */
  lemma {:induction false} NoDoubledRequest(calls: seq<Call>)
    ensures TypesDistinct(ApplyAll(EMPTY, calls).approvals)
  {
    if calls != [] {
      NoDoubledRequest(calls[..|calls|-1]);
      CallKeepsTypesDistinct(ApplyAll(EMPTY, calls[..|calls|-1]), calls[|calls|-1]);
    }
  }

  /** The types under which requests for the proposal were approved. */
  function ApprovedTypes(approvals: seq<Approval>, p: nat): set<string> {
    set a | 0 <= a < |approvals| && ApprovedFor(approvals[a], p) == 1 :: approvals[a].approvalType
  }

  lemma ApprovedTypesNext(approvals: seq<Approval>, last: Approval, p: nat)
    ensures ApprovedTypes(approvals + [last], p)
         == ApprovedTypes(approvals, p) + if ApprovedFor(last, p) == 1 then {last.approvalType} else {}
  {
    var all := approvals + [last];
    assert all[|approvals|] == last;
    assert forall a :: 0 <= a < |approvals| ==> all[a] == approvals[a];
    forall x | x in ApprovedTypes(approvals, p) ensures x in ApprovedTypes(all, p) {
      var a :| 0 <= a < |approvals| && ApprovedFor(approvals[a], p) == 1 && approvals[a].approvalType == x;
      assert all[a].approvalType == x && ApprovedFor(all[a], p) == 1;
    }
  }

  lemma {:induction false} ApprovedByType(approvals: seq<Approval>, p: nat)
    requires TypesDistinct(approvals)
    ensures ApprovedOf(approvals, p) == |ApprovedTypes(approvals, p)|
  {
    if approvals != [] {
      var front, last := approvals[..|approvals|-1], approvals[|approvals|-1];
      assert approvals == front + [last];
      ApprovedByType(front, p);
      ApprovedTypesNext(front, last, p);
    }
  }

  /** So in every history a proposal is executed at most once for each policy check of it that passed and once for
      each type under which it was approved. */
  lemma OneExecutionForEachType(calls: seq<Call>, p: nat)
    ensures var s := ApplyAll(EMPTY, calls);
      ExecutionsOf(s.executions, p) <= PassesOf(EMPTY, calls, p) + |ApprovedTypes(s.approvals, p)|
  {
    EveryHistoryIsPaidFor(calls, p);
    NoDoubledRequest(calls);
    ApprovedByType(ApplyAll(EMPTY, calls).approvals, p);
  }

  // ---------------------------------------------------------------- what never changes

  /** From `s` to `s'` decided requests, finished executions and the kinds of proposals stay as they are. */
  ghost predicate Settled(s: Store, s': Store) {
    && |s.approvals| <= |s'.approvals| && |s.executions| <= |s'.executions| && |s.proposals| <= |s'.proposals|
    && (forall a :: 0 <= a < |s.approvals| && s.approvals[a].decision != Pending ==> s'.approvals[a] == s.approvals[a])
    && (forall a :: 0 <= a < |s.approvals| ==>
          && s'.approvals[a].source == s.approvals[a].source
          && s'.approvals[a].approvalType == s.approvals[a].approvalType)
    && (forall e :: 0 <= e < |s.executions| && s.executions[e].executionStatus != Executing
          ==> s'.executions[e] == s.executions[e])
    && (forall e :: 0 <= e < |s.executions| ==> s'.executions[e].proposal == s.executions[e].proposal)
    && (forall p :: 0 <= p < |s.proposals| ==> s'.proposals[p].kind == s.proposals[p].kind)
  }

  lemma PipelineSettles(s: Store, environment: Environment, kind: string, approver: string, now: int, later: int)
    ensures Settled(s, PipelineResult(s, environment, kind, approver, now, later).0)
  {
  }

  lemma CallSettles(s: Store, c: Call)
    ensures Settled(s, Apply(s, c))
  {
    match c
    case CallRunPipeline(environment, kind, approver, now, later) =>
      PipelineEffect(s, environment, kind, approver, now, later);
      PipelineSettles(s, environment, kind, approver, now, later);
    case CallProcessDecision(a, approver, decision, now) => DecisionSettles(s, a, approver, decision, now);
    case _ =>
  }

  lemma DecisionSettles(s: Store, a: nat, approver: string, decision: string, now: int)
    ensures Settled(s, ProcessDecision(s, a, approver, decision, now).0)
  {
  }

  /** In every history a decided request never changes again, neither does a finished execution. */
  lemma {:induction false} DecidedStaysDecided(s: Store, calls: seq<Call>)
    ensures Settled(s, ApplyAll(s, calls))
  {
    if calls != [] {
      var front := calls[..|calls|-1];
      DecidedStaysDecided(s, front);
      CallSettles(ApplyAll(s, front), calls[|calls|-1]);
    }
  }
}
