/** The agent governance chain: task, proposal, policy, approval, controlled execution. The tables are
    sequences, a record's position being its id. */
module Governance {
  import opened Wrappers
  import Bars

  datatype Environment = Research | Backtest | Paper | Live

  datatype PolicyResult = Pass | Fail | ManualReviewRequired

  datatype TaskStatus =
    | TaskCreated | TaskPlanning | TaskRunning | TaskWaitingTool | TaskCompleted | TaskFailed | TaskTimeout
    | TaskCanceled | TaskEscalated

  datatype ProposalStatus =
    | Drafted | PolicyChecking | PolicyRejected | PendingApproval | Approved | Rejected | ExecutionPending | Executed
    | ExecutionFailed | ProposalExpired | ProposalCanceled

  datatype Decision = Pending | DecidedApproved | DecidedRejected | DecidedExpired | DecidedCanceled

  datatype ExecutionStatus =
    | ExecutionWaiting | Executing | ExecutionCompleted | ExecutionFailedFinally | ExecutionExpired

  datatype Task = Task(environment: Environment, taskStatus: TaskStatus)

  datatype Proposal = Proposal(
    kind: string,
    task: nat,
    status: ProposalStatus,
    policy: Option<PolicyResult>,
    approval: Option<nat>)

  /** `expiresAt` and the time of the decision are local time stamps. */
  datatype Approval = Approval(
    source: nat,
    approvalType: string,
    approver: string,
    decision: Decision,
    expiresAt: int,
    decidedAt: Option<int>)

  datatype Execution = Execution(proposal: nat, underApproval: Option<nat>, executionStatus: ExecutionStatus)

  /** Everything stored. */
  datatype Store = Store(
    tasks: seq<Task>,
    proposals: seq<Proposal>,
    approvals: seq<Approval>,
    executions: seq<Execution>,
    killSwitch: bool)

  datatype Error =
    | NotFound | PermissionDenied | PolicyViolation | DuplicateRequest | AlreadyDecided | UnknownDecision
    | IllegalTransition

  datatype Reply = Done(id: nat) | Refused(error: Error)

  const EMPTY := Store([], [], [], [], false)

  // ---------------------------------------------------------------- transition tables

  predicate TaskTransition(current: TaskStatus, target: TaskStatus) {
    match current
    case TaskCreated => target == TaskPlanning || target == TaskCanceled
    case TaskPlanning => target == TaskRunning || target == TaskFailed || target == TaskCanceled
    case TaskRunning =>
      || target == TaskWaitingTool || target == TaskCompleted || target == TaskFailed || target == TaskTimeout
      || target == TaskEscalated
    case TaskWaitingTool =>
      target == TaskRunning || target == TaskFailed || target == TaskTimeout || target == TaskCanceled
    case TaskTimeout => target == TaskEscalated
    case _ => false
  }

  predicate ProposalTransition(current: ProposalStatus, target: ProposalStatus) {
    match current
    case Drafted => target == PolicyChecking || target == ProposalCanceled
    case PolicyChecking =>
      target == PolicyRejected || target == PendingApproval || target == Approved || target == ProposalCanceled
    case PendingApproval =>
      target == Approved || target == Rejected || target == ProposalExpired || target == ProposalCanceled
    case Approved => target == ExecutionPending
    case ExecutionPending => target == Executed || target == ExecutionFailed || target == ProposalExpired
    case _ => false
  }

  predicate ApprovalTransition(current: Decision, target: Decision) {
    current == Pending && target != Pending
  }

  predicate ExecutionTransition(current: ExecutionStatus, target: ExecutionStatus) {
    match current
    case ExecutionWaiting => target == Executing || target == ExecutionExpired
    case Executing => target == ExecutionCompleted || target == ExecutionFailedFinally
    case _ => false
  }

  // ---------------------------------------------------------------- policy

  predicate GatedInLive(kind: string) {
    || kind == "pause_open" || kind == "close_only" || kind == "correction"
    || kind == "risk_param_change" || kind == "recovery_action"
  }

  predicate GatedInPaper(kind: string) {
    kind == "close_only" || kind == "risk_param_change" || kind == "recovery_action"
  }

  predicate Gated(environment: Environment, kind: string) {
    match environment
    case Live => GatedInLive(kind)
    case Paper => GatedInPaper(kind)
    case _ => false
  }

  function PolicyFor(killSwitch: bool, environment: Environment, kind: string): PolicyResult {
    if killSwitch then Fail
    else if Gated(environment, kind) then ManualReviewRequired
    else Pass
  }

  function ParseDecision(decision: string): Option<Decision> {
    if decision == "pending" then Some(Pending)
    else if decision == "approved" then Some(DecidedApproved)
    else if decision == "rejected" then Some(DecidedRejected)
    else if decision == "expired" then Some(DecidedExpired)
    else if decision == "canceled" then Some(DecidedCanceled)
    else None
  }

  // ---------------------------------------------------------------- the steps

  function CreateTask(s: Store, environment: Environment): (Store, Reply) {
    (s.(tasks := s.tasks + [Task(environment, TaskCreated)]), Done(|s.tasks|))
  }

  function StartTask(s: Store, t: nat): (Store, Reply) {
    if t >= |s.tasks| then (s, Refused(NotFound))
    else if !TaskTransition(s.tasks[t].taskStatus, TaskPlanning) then (s, Refused(IllegalTransition))
    else (s.(tasks := s.tasks[t := s.tasks[t].(taskStatus := TaskRunning)]), Done(t))
  }

  function CreateProposal(s: Store, t: nat, kind: string): (Store, Reply) {
    if t >= |s.tasks| then (s, Refused(NotFound))
    else if s.tasks[t].taskStatus != TaskRunning && s.tasks[t].taskStatus != TaskWaitingTool
    then (s, Refused(PermissionDenied))
    else (s.(proposals := s.proposals + [Proposal(kind, t, Drafted, None, None)]), Done(|s.proposals|))
  }

  /** A policy check sets the proposal's status whatever it was before. */
  function EvaluatePolicy(s: Store, p: nat, environment: Environment): (Store, Reply) {
    if p >= |s.proposals| then (s, Refused(NotFound))
    else
      var result := PolicyFor(s.killSwitch, environment, s.proposals[p].kind);
      var status :=
        match result
        case Fail => PolicyRejected
        case ManualReviewRequired => PendingApproval
        case Pass => Approved;
      (s.(proposals := s.proposals[p := s.proposals[p].(policy := Some(result), status := status)]), Done(p))
  }

  /** One second before the midnight that ends the day. */
  function EndOfDay(now: int): int {
    Bars.DayStart(Bars.DateOf(now)) + 86399
  }

  /** There is a request of this type for the proposal: the table's unique index admits no other. */
  predicate Requested(approvals: seq<Approval>, p: nat, approvalType: string) {
    exists a :: 0 <= a < |approvals| && approvals[a].source == p && approvals[a].approvalType == approvalType
  }

  /** Unless an expiry is given the request expires at the end of the day. */
  function RequestApproval(s: Store, p: nat, approvalType: string, expiry: Option<int>, now: int): (Store, Reply) {
    if p >= |s.proposals| then (s, Refused(NotFound))
    else if s.proposals[p].policy != Some(ManualReviewRequired) then (s, Refused(PolicyViolation))
    else if Requested(s.approvals, p, approvalType) then (s, Refused(DuplicateRequest))
    else (s.(approvals := s.approvals + [Approval(p, approvalType, "", Pending, expiry.GetOr(EndOfDay(now)), None)],
             proposals := s.proposals[p := s.proposals[p].(approval := Some(|s.approvals|))]), Done(|s.approvals|))
  }

  /** Approval and rejection set the proposal's status whatever it was before; other decisions leave it. Whether
      the request has expired is not asked. */
  function ProcessDecision(s: Store, a: nat, approver: string, decision: string, now: int): (Store, Reply) {
    if a >= |s.approvals| then (s, Refused(NotFound))
    else if s.approvals[a].decision != Pending then (s, Refused(AlreadyDecided))
    else if ParseDecision(decision) == None then (s, Refused(UnknownDecision))
    else
      var d := ParseDecision(decision).value;
      if !ApprovalTransition(s.approvals[a].decision, d) then (s, Refused(IllegalTransition))
      else
        var p := s.approvals[a].source;
        (s.(approvals := s.approvals[a := s.approvals[a].(approver := approver, decision := d, decidedAt := Some(now))],
            proposals :=
              if p < |s.proposals| && d == DecidedApproved then s.proposals[p := s.proposals[p].(status := Approved)]
              else if p < |s.proposals| && d == DecidedRejected
                then s.proposals[p := s.proposals[p].(status := Rejected)]
              else s.proposals), Done(a))
  }

  function ExecuteProposal(s: Store, p: nat): (Store, Reply) {
    if p >= |s.proposals| then (s, Refused(NotFound))
    else if s.proposals[p].status != Approved then (s, Refused(PermissionDenied))
    else (s.(proposals := s.proposals[p := s.proposals[p].(status := ExecutionPending)],
             executions := s.executions + [Execution(p, s.proposals[p].approval, Executing)]), Done(|s.executions|))
  }

  function CompleteExecution(s: Store, e: nat, failed: bool): (Store, Reply) {
    if e >= |s.executions| then (s, Refused(NotFound))
    else
      var target := if failed then ExecutionFailedFinally else ExecutionCompleted;
      if !ExecutionTransition(s.executions[e].executionStatus, target) then (s, Refused(IllegalTransition))
      else (s.(executions := s.executions[e := s.executions[e].(executionStatus := target)]), Done(e))
  }

  /** Marks a task completed, or failed after a policy rejection, resuming it first if it is waiting. */
  function CompleteTask(s: Store, t: nat, rejected: bool): (Store, Reply) {
    if t >= |s.tasks| then (s, Done(t))
    else
      var target := if rejected then TaskFailed else TaskCompleted;
      var resumed := if s.tasks[t].taskStatus == TaskWaitingTool then TaskRunning else s.tasks[t].taskStatus;
      if !TaskTransition(resumed, target) then (s, Refused(IllegalTransition))
      else (s.(tasks := s.tasks[t := s.tasks[t].(taskStatus := target)]), Done(t))
  }

  function WaitTask(s: Store, t: nat): (Store, Reply) {
    if t >= |s.tasks| then (s, Done(t))
    else if !TaskTransition(s.tasks[t].taskStatus, TaskWaitingTool) then (s, Refused(IllegalTransition))
    else (s.(tasks := s.tasks[t := s.tasks[t].(taskStatus := TaskWaitingTool)]), Done(t))
  }

  datatype PipelineReply =
    | PipelineRefused(cause: Error) | RejectedProposal(p: nat) | AwaitsApproval(a: nat) | Ran(e: nat)

  /** What follows a step, unless the step was refused. */
  function Then(step: (Store, Reply), next: (Store, nat) -> (Store, PipelineReply)): (Store, PipelineReply) {
    if step.1.Refused? then (step.0, PipelineRefused(step.1.error)) else next(step.0, step.1.id)
  }

  function RunApproved(s: Store, t: nat, p: nat): (Store, PipelineReply) {
    Then(ExecuteProposal(s, p), (s: Store, e: nat) => Then(CompleteTask(s, t, false), (s: Store, _) => (s, Ran(e))))
  }

  /** The type of the requests a pipeline makes. */
  function AgentType(kind: string): string {
    "agent_" + kind
  }

  /** The pipeline once the policy has been evaluated. The clock says `now` when a request is made and `later`
      when it is decided. */
  function AfterPolicy(s: Store, t: nat, p: nat, environment: Environment, approver: string, now: int, later: int)
    : (Store, PipelineReply)
  {
    if p >= |s.proposals| then (s, PipelineRefused(NotFound))
    else if s.proposals[p].policy == Some(Fail) then
      Then(CompleteTask(s, t, true), (s: Store, _) => (s, RejectedProposal(p)))
    else if s.proposals[p].policy == Some(ManualReviewRequired) then
      var approvalType := AgentType(s.proposals[p].kind);
      Then(RequestApproval(s, p, approvalType, None, now), (s: Store, a: nat) => Then(WaitTask(s, t), (s: Store, _) =>
        if approver != "" && environment != Live then
          Then(ProcessDecision(s, a, approver, "approved", later), (s: Store, _) => RunApproved(s, t, p))
        else (s, AwaitsApproval(a))))
    else RunApproved(s, t, p)
  }

  function RunPipeline(s: Store, environment: Environment, kind: string, approver: string, now: int, later: int)
    : (Store, PipelineReply)
  {
    Then(CreateTask(s, environment), (s: Store, t: nat) => Then(StartTask(s, t), (s: Store, _) =>
      Then(CreateProposal(s, t, kind), (s: Store, p: nat) => Then(EvaluatePolicy(s, p, environment), (s: Store, _) =>
        AfterPolicy(s, t, p, environment, approver, now, later)))))
  }

  // ---------------------------------------------------------------- histories of calls

  datatype Call =
    | CallCreateTask(environment: Environment)
    | CallStartTask(id: nat)
    | CallCreateProposal(id: nat, kind: string)
    | CallEvaluatePolicy(id: nat, environment: Environment)
    | CallRequestApproval(id: nat, approvalType: string, expiry: Option<int>, now: int)
    | CallProcessDecision(id: nat, approver: string, decision: string, now: int)
    | CallExecuteProposal(id: nat)
    | CallCompleteExecution(id: nat, failed: bool)
    | CallRunPipeline(environment: Environment, kind: string, approver: string, now: int, later: int)
    | CallSetKillSwitch(active: bool)

  function Apply(s: Store, c: Call): Store {
    match c
    case CallCreateTask(environment) => CreateTask(s, environment).0
    case CallStartTask(t) => StartTask(s, t).0
    case CallCreateProposal(t, kind) => CreateProposal(s, t, kind).0
    case CallEvaluatePolicy(p, environment) => EvaluatePolicy(s, p, environment).0
    case CallRequestApproval(p, approvalType, expiry, now) => RequestApproval(s, p, approvalType, expiry, now).0
    case CallProcessDecision(a, approver, decision, now) => ProcessDecision(s, a, approver, decision, now).0
    case CallExecuteProposal(p) => ExecuteProposal(s, p).0
    case CallCompleteExecution(e, failed) => CompleteExecution(s, e, failed).0
    case CallRunPipeline(environment, kind, approver, now, later) =>
      RunPipeline(s, environment, kind, approver, now, later).0
    case CallSetKillSwitch(active) => s.(killSwitch := active)
  }

  function ApplyAll(s: Store, calls: seq<Call>): Store {
    if calls == [] then s else Apply(ApplyAll(s, calls[..|calls|-1]), calls[|calls|-1])
  }
}
