/** The governance service over its stored records. */
module GovernanceService {
  import opened Wrappers
  import opened Governance

  class AgentGovernanceService {
    var tasks: seq<Task>
    var proposals: seq<Proposal>
    var approvals: seq<Approval>
    var executions: seq<Execution>
    var killSwitch: bool

    ghost function View(): Store
      reads this
    {
      Store(tasks, proposals, approvals, executions, killSwitch)
    }

    constructor ()
      ensures View() == EMPTY
    {
      tasks, proposals, approvals, executions := [], [], [], [];
      killSwitch := false;
    }

    method CreateAgentTask(environment: Environment) returns (r: Reply)
      modifies this
      ensures (View(), r) == CreateTask(old(View()), environment)
    {
      r := Done(|tasks|);
      tasks := tasks + [Task(environment, TaskCreated)];
    }

    method StartAgentTask(t: nat) returns (r: Reply)
      modifies this
      ensures (View(), r) == StartTask(old(View()), t)
    {
      if t >= |tasks| {
        return Refused(NotFound);
      }
      if !TaskTransition(tasks[t].taskStatus, TaskPlanning) || !TaskTransition(TaskPlanning, TaskRunning) {
        return Refused(IllegalTransition);
      }
      tasks := tasks[t := tasks[t].(taskStatus := TaskRunning)];
      return Done(t);
    }

    method CreateAgentProposal(t: nat, kind: string) returns (r: Reply)
      modifies this
      ensures (View(), r) == CreateProposal(old(View()), t, kind)
    {
      if t >= |tasks| {
        return Refused(NotFound);
      }
      if tasks[t].taskStatus != TaskRunning && tasks[t].taskStatus != TaskWaitingTool {
        return Refused(PermissionDenied);
      }
      r := Done(|proposals|);
      proposals := proposals + [Proposal(kind, t, Drafted, None, None)];
    }

    method EvaluateProposalPolicy(p: nat, environment: Environment) returns (r: Reply)
      modifies this
      ensures (View(), r) == EvaluatePolicy(old(View()), p, environment)
    {
      if p >= |proposals| {
        return Refused(NotFound);
      }
      var result := PolicyFor(killSwitch, environment, proposals[p].kind);
      var status;
      match result {
        case Fail => status := PolicyRejected;
        case ManualReviewRequired => status := PendingApproval;
        case Pass => status := Approved;
      }
      assert ProposalTransition(PolicyChecking, status);
      proposals := proposals[p := proposals[p].(policy := Some(result), status := status)];
      return Done(p);
    }

    method CreateApprovalRequest(p: nat, approvalType: string, expiry: Option<int>, now: int) returns (r: Reply)
      modifies this
      ensures (View(), r) == RequestApproval(old(View()), p, approvalType, expiry, now)
    {
      if p >= |proposals| {
        return Refused(NotFound);
      }
      if proposals[p].policy != Some(ManualReviewRequired) {
        return Refused(PolicyViolation);
      }
      if Requested(approvals, p, approvalType) {
        return Refused(DuplicateRequest);
      }
      var a := |approvals|;
      approvals := approvals + [Approval(p, approvalType, "", Pending, expiry.GetOr(EndOfDay(now)), None)];
      proposals := proposals[p := proposals[p].(approval := Some(a))];
      return Done(a);
    }

    method ProcessApprovalDecision(a: nat, approver: string, decision: string, now: int) returns (r: Reply)
      modifies this
      ensures (View(), r) == ProcessDecision(old(View()), a, approver, decision, now)
    {
      if a >= |approvals| {
        return Refused(NotFound);
      }
      if approvals[a].decision != Pending {
        return Refused(AlreadyDecided);
      }
      var parsed := ParseDecision(decision);
      if parsed == None {
        return Refused(UnknownDecision);
      }
      if !ApprovalTransition(approvals[a].decision, parsed.value) {
        return Refused(IllegalTransition);
      }
      approvals := approvals[a :=
        approvals[a].(approver := approver, decision := parsed.value, decidedAt := Some(now))];
      var p := approvals[a].source;
      if p < |proposals| {
        if parsed.value == DecidedApproved {
          assert ProposalTransition(PendingApproval, Approved);
          proposals := proposals[p := proposals[p].(status := Approved)];
        } else if parsed.value == DecidedRejected {
          assert ProposalTransition(PendingApproval, Rejected);
          proposals := proposals[p := proposals[p].(status := Rejected)];
        }
      }
      return Done(a);
    }

    method ExecuteApprovedProposal(p: nat) returns (r: Reply)
      modifies this
      ensures (View(), r) == ExecuteProposal(old(View()), p)
    {
      if p >= |proposals| {
        return Refused(NotFound);
      }
      if proposals[p].status != Approved {
        return Refused(PermissionDenied);
      }
      assert ProposalTransition(Approved, ExecutionPending);
      proposals := proposals[p := proposals[p].(status := ExecutionPending)];
      r := Done(|executions|);
      executions := executions + [Execution(p, proposals[p].approval, Executing)];
    }

    method CompleteControlledExecution(e: nat, failed: bool) returns (r: Reply)
      modifies this
      ensures (View(), r) == CompleteExecution(old(View()), e, failed)
    {
      if e >= |executions| {
        return Refused(NotFound);
      }
      var target := if failed then ExecutionFailedFinally else ExecutionCompleted;
      if !ExecutionTransition(executions[e].executionStatus, target) {
        return Refused(IllegalTransition);
      }
      executions := executions[e := executions[e].(executionStatus := target)];
      return Done(e);
    }

    method CompleteAgentTask(t: nat, rejected: bool) returns (r: Reply)
      modifies this
      ensures (View(), r) == CompleteTask(old(View()), t, rejected)
    {
      if t >= |tasks| {
        return Done(t);
      }
      var target := if rejected then TaskFailed else TaskCompleted;
      var status := tasks[t].taskStatus;
      if status == TaskWaitingTool {
        status := TaskRunning;
      }
      if !TaskTransition(status, target) {
        return Refused(IllegalTransition);
      }
      tasks := tasks[t := tasks[t].(taskStatus := target)];
      return Done(t);
    }

    method WaitAgentTask(t: nat) returns (r: Reply)
      modifies this
      ensures (View(), r) == WaitTask(old(View()), t)
    {
      if t >= |tasks| {
        return Done(t);
      }
      if !TaskTransition(tasks[t].taskStatus, TaskWaitingTool) {
        return Refused(IllegalTransition);
      }
      tasks := tasks[t := tasks[t].(taskStatus := TaskWaitingTool)];
      return Done(t);
    }

    method ExecuteAndComplete(t: nat, p: nat) returns (r: PipelineReply)
      modifies this
      ensures (View(), r) == RunApproved(old(View()), t, p)
    {
      var executed := ExecuteApprovedProposal(p);
      if executed.Refused? {
        return PipelineRefused(executed.error);
      }
      var completed := CompleteAgentTask(t, false);
      if completed.Refused? {
        return PipelineRefused(completed.error);
      }
      return Ran(executed.id);
    }

    method ContinuePipeline(t: nat, p: nat, environment: Environment, approver: string, now: int, later: int)
      returns (r: PipelineReply)
      modifies this
      ensures (View(), r) == AfterPolicy(old(View()), t, p, environment, approver, now, later)
    {
      if p >= |proposals| {
        return PipelineRefused(NotFound);
      }
      if proposals[p].policy == Some(Fail) {
        var completed := CompleteAgentTask(t, true);
        return if completed.Refused? then PipelineRefused(completed.error) else RejectedProposal(p);
      }
      if proposals[p].policy == Some(ManualReviewRequired) {
        var requested := CreateApprovalRequest(p, AgentType(proposals[p].kind), None, now);
        if requested.Refused? {
          return PipelineRefused(requested.error);
        }
        var waited := WaitAgentTask(t);
        if waited.Refused? {
          return PipelineRefused(waited.error);
        }
        if approver != "" && environment != Live {
          var decided := ProcessApprovalDecision(requested.id, approver, "approved", later);
          if decided.Refused? {
            return PipelineRefused(decided.error);
          }
          r := ExecuteAndComplete(t, p);
          return;
        }
        return AwaitsApproval(requested.id);
      }
      r := ExecuteAndComplete(t, p);
    }

    /** The whole chain in one call. */
    method RunFullPipeline(environment: Environment, kind: string, approver: string, now: int, later: int)
      returns (r: PipelineReply)
      modifies this
      ensures (View(), r) == RunPipeline(old(View()), environment, kind, approver, now, later)
    {
      var created := CreateAgentTask(environment);
      var started := StartAgentTask(created.id);
      assert started.Done?;
      var proposed := CreateAgentProposal(created.id, kind);
      assert proposed.Done?;
      var evaluated := EvaluateProposalPolicy(proposed.id, environment);
      assert evaluated.Done?;
      r := ContinuePipeline(created.id, proposed.id, environment, approver, now, later);
    }
  }
}
