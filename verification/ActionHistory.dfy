/**
  Histories of one stored AgentAction. Compare-and-set makes every stored version the result of one write applied to
  the version before it (ApprovalTheorems.EveryRunIsOneHistory), so what holds of every history built from legal writes
  holds of every interleaving of the controllers and users.
 */
module ActionHistory {
  import opened Wrappers
  import opened AgentActions
  import opened EffectivenessEvaluation
  import opened Guardrails

  datatype PlanSpec = PlanSpec(
    target: Target, actionType: ActionType, parameters: map<string, string>, severity: Severity, ttlSeconds: int,
    approvalTimeoutSeconds: int, rollbackPlan: seq<string>)

  /** The state of the verification investigation as an action pass reads it. */
  datatype Verification = Verification(terminal: bool, finding: InvestigationOutcome)

  datatype Write =
    | UserEdit(spec: Spec, targetUIDAnnotation: string, retained: bool)
    | PlanSave(spec: Spec, targetUIDAnnotation: string)
    | PlanDecision(evaluation: Evaluation, now: Time)
    | DispatchRecord(baseline: Option<Baseline>, now: Time)
    | DispatchRefusal(reason: FailureReason, evidenceOf: Option<Baseline>, now: Time)
    | SuccessRecord(request: Request, result: Result, now: Time)
    | UnknownRecord(result: Result, error: FailureReason, now: Time)
    | FailureRecord(error: FailureReason, now: Time)
    | PendingRecord(now: Time)
    | NotifyAttempt(now: Time)
    | NotifyFailure(lastError: string)
    | Escalation(notified: bool, now: Time)
    | VerificationStart(name: string, now: Time)
    | VerificationEnd(verification: Verification, post: Option<Health>, observeFailed: bool, now: Time)

  function Edited(a: AgentAction, spec: Spec, targetUIDAnnotation: string, retained: bool): AgentAction {
    a.(spec := spec, targetUIDAnnotation := targetUIDAnnotation, retained := retained,
       generation := if spec == a.spec then a.generation else a.generation + 1)
  }

  function DecisionStatus(a: AgentAction, evaluation: Evaluation, now: Time): Status {
    var status := a.status.(dryRun := Some(DryRun(evaluation.dryRunResult, now)));
    match evaluation.decision
    case Auto =>
      SetResource(status, Approved, a.generation, now).(
        approval := Some(Approval(true, evaluation.approvedBy, ApprovalSource(evaluation, GuardrailsAutoApproval), SpecDigest(a.spec),
                                  a.generation, None, Some(now), PolicyEngineDecider, None)))
    case Manual =>
      SetResource(status, WaitingApproval, a.generation, now).(
        approval := Some(Approval(false, "", ApprovalSource(evaluation, ManualApprovalRequired), SpecDigest(a.spec),
                                  a.generation, None, Some(now), PolicyEngineDecider, None)))
    case Reject =>
      SetResource(status, Rejected, a.generation, now).(
        finishedAt := Some(now),
        approval := Some(Approval(false, "", ApprovalSource(evaluation, GuardrailsRejected), SpecDigest(a.spec),
                                  a.generation, None, Some(now), PolicyEngineDecider, None)))
  }

  /** A waiting action whose deadline has passed, so that a pass may notify and escalate. */
  predicate DeadlinePassed(a: AgentAction, now: Time) {
    Route(a) == Pending && !NeedsFreshPending(a) && TimeoutApplies(a) && now >= Deadline(a)
  }

  /** When a pass that read this version issues this write. */
  predicate Legal(a: AgentAction, w: Write) {
    match w
    case UserEdit(_, _, _) => true
    case PlanSave(_, _) => true
    case PlanDecision(_, _) => true
    case DispatchRecord(_, _) => Route(a) == Dispatch
    case DispatchRefusal(_, _, _) => Route(a) == Dispatch
    case SuccessRecord(request, _, _) => request.executionID != NoIdentity
    case UnknownRecord(_, _, _) => true
    case FailureRecord(_, _) => true
    case PendingRecord(_) => Route(a) == Pending && NeedsFreshPending(a)
    case NotifyAttempt(now) => DeadlinePassed(a, now)
    case NotifyFailure(_) => a.status.notification.Some?
    case Escalation(_, now) => DeadlinePassed(a, now)
    case VerificationStart(_, now) =>
      Route(a) == VerifyEffectiveness && AwaitsVerification(a)
      && Reached(a.status.effectiveness.value.settlingUntil, now) && a.status.effectiveness.value.verificationRef.None?
    case VerificationEnd(verification, _, _, now) =>
      Route(a) == VerifyEffectiveness && AwaitsVerification(a)
      && Reached(a.status.effectiveness.value.settlingUntil, now) && a.status.effectiveness.value.verificationRef.Some?
      && Reached(a.status.effectiveness.value.observationUntil, now) && verification.terminal
  }

  function EndOutcome(a: AgentAction, w: Write): EffectivenessOutcome
    requires w.VerificationEnd?
    requires HasBaseline(a.status)
  {
    if w.observeFailed then Inconclusive
    else EffectivenessEvaluation.Evaluate(Some(BaselineOf(a.status)), w.post, Some(w.verification.finding))
  }

  /** The status that a write asks the server to store. */
  function NewStatus(a: AgentAction, w: Write): Status
    requires Legal(a, w)
  {
    match w
    case UserEdit(_, _, _) => a.status
    case PlanSave(_, _) => a.status
    case PlanDecision(evaluation, now) => DecisionStatus(a, evaluation, now)
    case DispatchRecord(baseline, now) => DispatchStatus(a, baseline, now)
    case DispatchRefusal(reason, evidenceOf, now) =>
      FailBeforeDispatchStatus(
        if evidenceOf.Some? then a.(status := DispatchStatus(a, evidenceOf, now)) else a, DispatchRequest(a), reason, now)
    case SuccessRecord(request, result, now) => SuccessStatus(a, request, result, now)
    case UnknownRecord(result, error, now) => UnknownOutcomeStatus(a, result, error, now)
    case FailureRecord(error, now) => FailureStatus(a, error, now)
    case PendingRecord(now) => PendingStatus(a, now)
    case NotifyAttempt(now) => NotifyAttemptStatus(a, now)
    case NotifyFailure(error) => NotifyFailedStatus(a, error)
    case Escalation(_, now) => EscalatedStatus(a, now)
    case VerificationStart(name, _) => VerificationStartedStatus(a, name)
    case VerificationEnd(_, post, observeFailed, now) =>
      VerificationCompletedStatus(a, EndOutcome(a, w), if observeFailed then None else post, now)
  }

  /** The version that a legal write stores. */
  function After(a: AgentAction, w: Write): AgentAction
    requires Legal(a, w)
  {
    match w
    case UserEdit(spec, uid, retained) => Edited(a, spec, uid, retained)
    case PlanSave(spec, uid) => Edited(a, spec, uid, a.retained)
    case _ => a.(status := Stored(NewStatus(a, w)))
  }

  /** A history: the versions of one object, and the write that made each one after the first. */
  datatype History = History(versions: seq<AgentAction>, writes: seq<Write>)

  ghost predicate Follows(a: AgentAction, w: Write, b: AgentAction) {
    Legal(a, w) && b == After(a, w)
  }

  ghost predicate Serial(h: History) {
    |h.versions| == |h.writes| + 1
    && h.versions[0].status == EMPTY_STATUS
    && forall k {:trigger h.writes[k]} :: 0 <= k < |h.writes| ==>
         Follows(h.versions[k], h.writes[k], h.versions[k + 1])
  }
}
