/** The in-place updates of the plan controller: the action it fills from a plan, and the plan's own phase. */
module RemediationPlanController {
  import opened AgentActions
  import opened ApprovalProtocol
  import Guardrails

  /** The action object inside the create-or-update callback. */
  class ActionDraft {
    var spec: Spec
    var targetUIDAnnotation: string

    constructor (spec: Spec, targetUIDAnnotation: string)
      ensures this.spec == spec && this.targetUIDAnnotation == targetUIDAnnotation
    {
      this.spec, this.targetUIDAnnotation := spec, targetUIDAnnotation;
    }

    /** Everything but the approver is overwritten; the approver only by an automatic decision. */
    method FillFromPlan(plan: Plan, evaluation: Guardrails.Evaluation)
      modifies this
      ensures spec == AppliedSpec(plan, evaluation, old(spec))
      ensures targetUIDAnnotation == AppliedUID(plan, old(targetUIDAnnotation))
    {
      var approvalTimeoutSeconds := plan.spec.approvalTimeoutSeconds;
      if evaluation.approvalTimeoutSeconds > 0 {
        approvalTimeoutSeconds := evaluation.approvalTimeoutSeconds;
      }
      if plan.targetUIDAnnotation != "" {
        targetUIDAnnotation := plan.targetUIDAnnotation;
      }
      spec := spec.(target := plan.spec.target);
      spec := spec.(actionType := plan.spec.actionType);
      spec := spec.(parameters := plan.spec.parameters);
      spec := spec.(dryRunResult := evaluation.dryRunResult);
      spec := spec.(ttlSeconds := plan.spec.ttlSeconds);
      spec := spec.(approvalTimeoutSeconds := approvalTimeoutSeconds);
      spec := spec.(rollbackPlan := plan.spec.rollbackPlan);
      if evaluation.decision == Guardrails.Auto {
        spec := spec.(approvedBy := evaluation.approvedBy);
      }
    }
  }

  /** The target UID of a plan replaces that of the action if the plan has one. */
  lemma PlanUIDWins(plan: Plan, uid: string)
    ensures AppliedUID(plan, uid) in {plan.targetUIDAnnotation, uid}
    ensures plan.targetUIDAnnotation != "" ==> AppliedUID(plan, uid) == plan.targetUIDAnnotation
    ensures plan.targetUIDAnnotation == "" ==> AppliedUID(plan, uid) == uid
  {
  }

  /** Namespace defaults fill what a plan leaves out, and change nothing that it says. */
  lemma DefaultsFillGaps(plan: Plan, ttlSeconds: int, approvalTimeoutSeconds: int)
    ensures var filled := WithDefaults(plan, ttlSeconds, approvalTimeoutSeconds);
            filled == plan.(spec := plan.spec.(ttlSeconds := filled.spec.ttlSeconds,
                                               approvalTimeoutSeconds := filled.spec.approvalTimeoutSeconds))
            && (plan.spec.ttlSeconds != 0 ==> filled.spec.ttlSeconds == plan.spec.ttlSeconds)
            && (plan.spec.ttlSeconds == 0 ==> filled.spec.ttlSeconds == if ttlSeconds > 0 then ttlSeconds else 0)
            && (plan.spec.approvalTimeoutSeconds != 0 ==>
                  filled.spec.approvalTimeoutSeconds == plan.spec.approvalTimeoutSeconds)
            && (plan.spec.approvalTimeoutSeconds == 0 ==>
                  filled.spec.approvalTimeoutSeconds == if approvalTimeoutSeconds > 0 then approvalTimeoutSeconds else 0)
    ensures WithDefaults(WithDefaults(plan, ttlSeconds, approvalTimeoutSeconds), ttlSeconds, approvalTimeoutSeconds)
         == WithDefaults(plan, ttlSeconds, approvalTimeoutSeconds)
  {
  }

  /** Writing the action again gives the same content, and so the same digest, whoever has signed in between. */
  lemma FillingAgainKeepsTheDigest(plan: Plan, evaluation: Guardrails.Evaluation, existing: Spec, other: Spec)
    ensures SpecDigest(AppliedSpec(plan, evaluation, existing)) == SpecDigest(AppliedSpec(plan, evaluation, other))
    ensures AppliedSpec(plan, evaluation, AppliedSpec(plan, evaluation, existing)) == AppliedSpec(plan, evaluation, existing)
    ensures evaluation.decision != Guardrails.Auto ==>
              AppliedSpec(plan, evaluation, existing).approvedBy == existing.approvedBy
  {
  }
}
