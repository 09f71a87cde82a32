/** The legacy guardrails engine and the provenance of a decision. */
module Guardrails {
  import opened Wrappers
  import opened AgentActions

  const AUTO_APPROVER := "fluxseer-rca-policy-engine"

  datatype Severity = LowSeverity | MediumSeverity | HighSeverity | UnsafeSeverity | OtherSeverity | EmptySeverity

  datatype Policy = Policy(
    allowedActionTypes: seq<ActionType>, protectedNamespaces: seq<string>, autoApproveMax: Severity,
    requireApprovalAtOrAbove: Severity)

  datatype Decision = Auto | Manual | Reject

  datatype PolicyReference = PolicyReference(kind: string, namespace: string, name: string, version: string)

  /** A decision with what produced it: no policy reference means that the legacy engine decided. */
  datatype Evaluation = Evaluation(
    decision: Decision, approvedBy: string, dryRunResult: DryRunResult, policy: Option<PolicyReference>,
    approvalTimeoutSeconds: int)

  function Rank(s: Severity): int {
    match s
    case LowSeverity => 1
    case MediumSeverity => 2
    case HighSeverity => 3
    case UnsafeSeverity => 4
    case _ => 99
  }

  function Evaluate(policy: Policy, namespace: string, actionType: ActionType, severity: Severity): Evaluation {
    if actionType !in policy.allowedActionTypes then Evaluation(Reject, "", NoDryRun, None, 0)
    else if namespace in policy.protectedNamespaces && severity == HighSeverity then
      Evaluation(Manual, "", ApprovalRequired, None, 0)
    else
      var autoMax := if policy.autoApproveMax == EmptySeverity then LowSeverity else policy.autoApproveMax;
      var approvalMin :=
        if policy.requireApprovalAtOrAbove == EmptySeverity then MediumSeverity else policy.requireApprovalAtOrAbove;
      if Rank(severity) <= Rank(autoMax) then Evaluation(Auto, AUTO_APPROVER, SafeToExecute, None, 0)
      else if Rank(severity) >= Rank(approvalMin) && severity != UnsafeSeverity then
        Evaluation(Manual, "", RollbackPlanPresent, None, 0)
      else Evaluation(Reject, "", NoDryRun, None, 0)
  }

  /** The severities up to a limit, in the order low, medium, high, unsafe. A limit of another name is above them all. */
  function UpTo(limit: Severity): set<Severity> {
    match limit
    case LowSeverity => {LowSeverity}
    case MediumSeverity => {LowSeverity, MediumSeverity}
    case HighSeverity => {LowSeverity, MediumSeverity, HighSeverity}
    case UnsafeSeverity => {LowSeverity, MediumSeverity, HighSeverity, UnsafeSeverity}
    case _ => {LowSeverity, MediumSeverity, HighSeverity, UnsafeSeverity, OtherSeverity, EmptySeverity}
  }

  /** The limit of automatic approval; an unset one is low. */
  function AutoLimit(policy: Policy): Severity {
    if policy.autoApproveMax == EmptySeverity then LowSeverity else policy.autoApproveMax
  }

  /** High severity in a protected namespace. */
  predicate Guarded(policy: Policy, namespace: string, severity: Severity) {
    severity == HighSeverity && namespace in policy.protectedNamespaces
  }

  /**
    Of the listed actions, those up to the limit are approved automatically, unless guarded; those from the approval
    threshold on (medium when unset) need a human, as the guarded ones do; the unsafe ones above the limit and the
    rest are rejected.
   */
  lemma DecidesExactlyWhen(policy: Policy, namespace: string, actionType: ActionType, severity: Severity)
    ensures var evaluation := Evaluate(policy, namespace, actionType, severity);
            var listed := actionType in policy.allowedActionTypes;
            var guarded := Guarded(policy, namespace, severity);
            var threshold :=
              if policy.requireApprovalAtOrAbove.EmptySeverity? then MediumSeverity else policy.requireApprovalAtOrAbove;
            && (evaluation.decision.Auto? <==> listed && !guarded && severity in UpTo(AutoLimit(policy)))
            && (evaluation.decision.Manual? <==>
                  listed
                  && (guarded || (severity !in UpTo(AutoLimit(policy)) && threshold in UpTo(severity)
                                  && severity != UnsafeSeverity)))
            && (evaluation.decision.Reject? <==>
                  !listed
                  || (!guarded && severity !in UpTo(AutoLimit(policy))
                      && (threshold !in UpTo(severity) || severity == UnsafeSeverity)))
            && evaluation.approvedBy == (if evaluation.decision.Auto? then AUTO_APPROVER else "")
            && evaluation.policy.None?
  {
  }

  /** The recorded source of a decision: the policy that matched, or the fallback of the legacy engine. */
  function ApprovalSource(evaluation: Evaluation, fallback: Source): Source {
    match evaluation.policy
    case None => fallback
    case Some(p) => PolicySource(p.kind, p.namespace, p.name, p.version)
  }
}
