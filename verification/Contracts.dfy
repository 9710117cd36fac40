/** The value types shared by the components of the agent. */
module Contracts {
  datatype Option<+T> = None | Some(value: T)

  datatype Result<+T, +E> = Ok(value: T) | Err(error: E)

  datatype Signal = Signal(
    id: string, namespace: string, resource: string, reason: string, severity: string, receivedAt: int)

  /** An incident is open while `resolvedAt` is None. */
  datatype Incident = Incident(
    id: string, signals: seq<Signal>, affectedResources: seq<string>, severity: string,
    openedAt: int, updatedAt: int, resolvedAt: Option<int>)

  datatype Verdict = Auto | RequireApproval | Block | OtherVerdict(name: string)

  datatype AutonomyLevel = Unset | Observe | Propose | AutoWithApproval | FullAuto | OtherLevel(name: string)

  datatype ActionParams = ActionParams(
    actionType: string, targetReplicas: int, currentReplicas: int, memoryBumpFactor: real)

  datatype Proposal = Proposal(
    incidentId: string, namespace: string, resource: string, failureMode: string,
    params: ActionParams, confidence: real)

  datatype ApprovalDecision = Approved | Denied | Timeout | OtherDecision(name: string)

  datatype Outcome = Recovered | Failed | Inconclusive
}
