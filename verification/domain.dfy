// The records that travel through the remediation pipeline.  Timestamps are integers, the JSON
// columns of the pipeline table hold the values they serialise, and log text is left out.
module Domain {
  import opened Common

  datatype Context = Context(incident: string, owner: string, repo: string, branch: string, commit: string)

  datatype ProposalStatus = Proposed | ProposalRejected | Ineligible

  datatype Proposal = Proposal(id: string, incident: string, commit: string, status: ProposalStatus,
                               isValid: bool, diff: string, targets: seq<string>, confidence: real)

  datatype ValidationStatus =
    Passed | Failed | TimedOut | PatchRejected | Unsupported | InfrastructureError

  datatype Validation = Validation(proposalId: string, status: ValidationStatus, exitCode: Option<int>)

  datatype ApprovalStatus = Pending | Approved | Rejected | Expired | Cancelled

  datatype Approval = Approval(incident: string, proposalId: string, commit: string, status: ApprovalStatus,
                               expiresAt: Option<int>, reviewer: Option<string>, reason: Option<string>,
                               decidedAt: Option<int>)

  datatype PipelineStatus =
    | Received | Diagnosing | Proposing | Validating | AwaitingApproval
    | Mutating | Completed | PipelineRejected | PipelineFailed

  datatype Cause =
    NotFixable | NoContext | BadProposal | BadValidation | Exception | ReviewerRejected | MutationFailed

  datatype Pipeline = Pipeline(commit: string, status: PipelineStatus, diagnosisId: Option<string>,
                               proposalId: Option<string>, approvalId: Option<string>,
                               mutationId: Option<string>, prNumber: Option<int>, cause: Option<Cause>,
                               context: Option<Context>, proposal: Option<Proposal>,
                               validation: Option<Validation>)

  // The proposal gate shared by the orchestrator, the approval gate and the mutation service.
  predicate Usable(p: Proposal) { p.isValid && p.status.Proposed? }

  // The validation gate shared by the same three.
  predicate Clean(v: Validation) { v.status.Passed? && v.exitCode == Some(0) }

  // ApprovalService.check_eligibility.
  predicate Eligible(p: Proposal, v: Validation, minConfidence: real) {
    Usable(p) && p.diff != "" && Clean(v) && p.confidence >= minConfidence
  }
}
