/**
  The in-place updates of the action controller and of the plan controller. A pass holds one decoded object, changes
  its status field by field, and then asks the server to store it; each method is proved to leave exactly the status
  that the histories of ActionHistory are made of.
 */
module AgentActionController {
  import opened Wrappers
  import opened AgentActions
  import opened ActionHistory
  import EffectivenessEvaluation
  import Guardrails

  class ActionObject {
    const uid: string
    const generation: nat
    const targetUIDAnnotation: string
    const retained: bool
    const spec: Spec
    var phase: Phase
    var observedGeneration: nat
    var updatedAt: Time
    var finishedAt: Option<Time>
    var approval: Option<Approval>
    var notification: Option<Notification>
    var dryRun: Option<DryRun>
    var execution: Option<Execution>
    var effectiveness: Option<Effectiveness>

    function Current(): Status
      reads this
    {
      Status(phase, observedGeneration, updatedAt, finishedAt, approval, notification, dryRun, execution, effectiveness)
    }

    function Value(): AgentAction
      reads this
    {
      AgentAction(uid, generation, targetUIDAnnotation, retained, spec, Current())
    }

    constructor (a: AgentAction)
      ensures Value() == a
    {
      uid, generation, targetUIDAnnotation, retained, spec :=
        a.uid, a.generation, a.targetUIDAnnotation, a.retained, a.spec;
      phase, observedGeneration, updatedAt, finishedAt :=
        a.status.phase, a.status.observedGeneration, a.status.updatedAt, a.status.finishedAt;
      approval, notification, dryRun := a.status.approval, a.status.notification, a.status.dryRun;
      execution, effectiveness := a.status.execution, a.status.effectiveness;
    }

    method SetResourceStatus(phase: Phase, now: Time)
      modifies this`phase, this`observedGeneration, this`updatedAt
      ensures Current() == SetResource(old(Current()), phase, generation, now)
    {
      this.phase := phase;
      observedGeneration := generation;
      updatedAt := now;
    }

    /** The branch that a pass takes, decided in the order of the controller's tests. */
    method Decide() returns (branch: Branch)
      ensures branch == Route(Value())
    {
      if effectiveness.Some? && effectiveness.value.phase == Verifying {
        return VerifyEffectiveness;
      }
      if phase == Succeeded || phase == Failed || phase == Rejected {
        return TerminalTTL;
      }
      if phase == Executing && execution.Some? && execution.value.executionID != NoIdentity {
        return ResolveOnly;
      }
      var approved := CheckApproved();
      if !approved {
        return Pending;
      }
      return Dispatch;
    }

    method CheckApproved() returns (approved: bool)
      ensures approved == IsApproved(Value())
    {
      if approval.None? {
        return false;
      }
      if approval.value.actionDigest != SpecDigest(spec) {
        return false;
      }
      if approval.value.approved {
        return true;
      }
      return approval.value.source == ManualApprovalRequired && spec.approvedBy != "";
    }

    /** The executing status that is stored ahead of the backend call. */
    method MarkExecuting(baseline: Option<Baseline>, now: Time)
      requires approval.Some?
      modifies this`phase, this`observedGeneration, this`updatedAt, this`approval, this`execution, this`effectiveness
      ensures Value() == old(Value()).(status := DispatchStatus(old(Value()), baseline, now))
    {
      hide SpecDigest, Identity, TargetUID;
      ghost var next := DispatchStatus(Value(), baseline, now);
      var request := DispatchRequest(Value());
      var before := approval.value;
      var approvedBy, source := before.approvedBy, before.source;
      var startedAt := now;
      if baseline.Some? && startedAt <= baseline.value.capturedAt {
        startedAt := baseline.value.capturedAt + 1;
      }
      SetResourceStatus(Executing, startedAt);
      var approvedAt := before.approvedAt;
      if !before.approved {
        approvedBy := spec.approvedBy;
        source := ManualApprovalConfirmed;
        approvedAt := Some(startedAt);
      }
      approval := Some(Approval(true, approvedBy, source, SpecDigest(spec), generation, approvedAt, before.decidedAt,
                                before.decidedBy, before.escalatedAt));
      execution := Some(Execution(Some(ExecutionExecuting), NoOutcome, request.executionID, request.idempotencyKey,
                                  request.attempt, NoReason, NoExecutor, Some(startedAt), None));
      if baseline.Some? {
        effectiveness :=
          Some(Effectiveness(NotVerified, NoEffectivenessOutcome, None, baseline, None, None, None, None, None));
      }
      assert phase == next.phase && updatedAt == next.updatedAt && finishedAt == next.finishedAt;
      assert approval == next.approval;
      assert execution == next.execution;
      assert effectiveness == next.effectiveness;
    }

    method FailBeforeDispatch(request: Request, reason: FailureReason, now: Time)
      modifies this`phase, this`observedGeneration, this`updatedAt, this`finishedAt, this`execution,
        this`effectiveness
      ensures Value() == old(Value()).(status := FailBeforeDispatchStatus(old(Value()), request, reason, now))
    {
      var finished := FinishedAt(execution, now);
      SetResourceStatus(Failed, finished);
      finishedAt := Some(finished);
      execution := Some(Execution(Some(ExecutionFailed), OutcomeFailed, request.executionID, request.idempotencyKey,
                                  request.attempt, reason, NoExecutor, None, Some(finished)));
      effectiveness := Some(Effectiveness(NotVerified, NoEffectivenessOutcome, None, None, None, None, None, None, None));
    }

    /** The error answer of a backend: an unknown outcome stays executing, anything else fails. */
    method RecordError(result: Result, error: FailureReason, now: Time)
      modifies this`phase, this`observedGeneration, this`updatedAt, this`finishedAt, this`execution
      ensures Value() == old(Value()).(
                status := if result.outcome == OutcomeUnknown then UnknownOutcomeStatus(old(Value()), result, error, now)
                          else FailureStatus(old(Value()), error, now))
    {
      var finished := FinishedAt(execution, now);
      if result.outcome == OutcomeUnknown {
        SetResourceStatus(Executing, finished);
        var status := if execution.None? then EMPTY_EXECUTION else execution.value;
        status := status.(phase := Some(ExecutionUnknown));
        status := status.(outcome := result.outcome);
        status := status.(failureReason := result.failureReason);
        if status.failureReason == NoReason {
          status := status.(failureReason := error);
        }
        status := status.(finishedAt := Some(finished));
        execution := Some(status);
        return;
      }
      SetResourceStatus(Failed, finished);
      finishedAt := Some(finished);
      var status := if execution.None? then EMPTY_EXECUTION else execution.value;
      status := status.(phase := Some(ExecutionFailed));
      status := status.(outcome := OutcomeFailed);
      status := status.(failureReason := error);
      status := status.(finishedAt := Some(finished));
      execution := Some(status);
    }

    /** The execution record of a success, before the baseline and the end of the execution are considered. */
    method SuccessRecordOf(request: Request, result: Result) returns (status: Execution)
      ensures status == Execution(
                Some(ExecutionSucceeded), if result.outcome == NoOutcome then OutcomeSucceeded else result.outcome,
                if result.executionID == NoIdentity then request.executionID else result.executionID,
                request.idempotencyKey, request.attempt, result.failureReason, result.executor, status.startedAt, None)
      ensures status.startedAt ==
              if execution.Some? && execution.value.startedAt.Some? then execution.value.startedAt
              else if result.startedAt != ZERO_TIME then Some(result.startedAt) else None
    {
      var executionID := result.executionID;
      if executionID == NoIdentity {
        executionID := request.executionID;
      }
      status := Execution(Some(ExecutionSucceeded), result.outcome, executionID, request.idempotencyKey,
                          request.attempt, result.failureReason, result.executor, None, None);
      if status.outcome == NoOutcome {
        status := status.(outcome := OutcomeSucceeded);
      }
      if execution.Some? && execution.value.startedAt.Some? {
        status := status.(startedAt := execution.value.startedAt);
      } else if result.startedAt != ZERO_TIME {
        status := status.(startedAt := Some(result.startedAt));
      }
    }

    method RecordSuccess(request: Request, result: Result, now: Time)
      modifies this`phase, this`observedGeneration, this`updatedAt, this`finishedAt, this`execution,
        this`effectiveness
      ensures Value() == old(Value()).(status := SuccessStatus(old(Value()), request, result, now))
    {
      ghost var before, next := Value(), SuccessStatus(Value(), request, result, now);
      var status := SuccessRecordOf(request, result);
      var record := Effectiveness(NotVerified, NoEffectivenessOutcome, None, None, None, None, None, None, None);
      if effectiveness.Some? && effectiveness.value.baseline.Some? {
        record := effectiveness.value;
        record := record.(phase := Verifying);
        record := record.(outcome := NoEffectivenessOutcome);
        if status.startedAt.None? || record.baseline.value.capturedAt >= status.startedAt.value {
          status := status.(startedAt := Some(record.baseline.value.capturedAt + SECOND));
        }
      }
      assert status.startedAt == RecordedStart(before, result);
      var finished := FinishedAt(Some(status), now);
      assert finished == next.updatedAt;
      SetResourceStatus(Succeeded, finished);
      finishedAt := Some(finished);
      execution := Some(status.(finishedAt := Some(finished)));
      if record.baseline.Some? {
        record := record.(startedAt := Some(finished));
        record := record.(settlingUntil := Some(now + SETTLING_PERIOD));
        record := record.(observationUntil := Some(now + (SETTLING_PERIOD + OBSERVATION_WINDOW)));
      }
      effectiveness := Some(record);
      assert execution == next.execution;
      assert effectiveness == next.effectiveness;
    }

    /** Replace a missing or outdated approval record; an up to date one is left as it is. */
    method ResetToPending(now: Time) returns (wrote: bool)
      modifies this`phase, this`observedGeneration, this`updatedAt, this`approval
      ensures wrote == NeedsFreshPending(old(Value()))
      ensures Value() == if wrote then old(Value()).(status := PendingStatus(old(Value()), now)) else old(Value())
    {
      var digest := SpecDigest(spec);
      if approval.None? || approval.value.actionDigest != digest {
        SetResourceStatus(WaitingApproval, now);
        approval := Some(Approval(false, "", PendingSource, digest, generation, None, None, NoDecider, None));
        return true;
      }
      return false;
    }

    /** Whether the approval timeout has run out; before that nothing is written. */
    method TimedOut(now: Time) returns (timedOut: bool)
      ensures timedOut == (TimeoutApplies(Value()) && now >= Deadline(Value()))
    {
      if phase == Escalated || spec.approvalTimeoutSeconds <= 0 || updatedAt == ZERO_TIME {
        return false;
      }
      var deadline := updatedAt + spec.approvalTimeoutSeconds * SECOND;
      return now >= deadline;
    }

    method AttemptNotification(now: Time)
      modifies this`notification
      ensures Value() == old(Value()).(status := NotifyAttemptStatus(old(Value()), now))
    {
      var attemptCount := 1;
      if notification.Some? {
        attemptCount := notification.value.retryCount + 1;
      }
      notification := Some(Notification(now, attemptCount, ""));
    }

    method FailNotification(error: string)
      requires notification.Some?
      modifies this`notification
      ensures Value() == old(Value()).(status := NotifyFailedStatus(old(Value()), error))
    {
      notification := Some(notification.value.(lastError := error));
    }

    method Escalate(now: Time)
      requires approval.Some?
      modifies this`phase, this`observedGeneration, this`updatedAt, this`approval
      ensures Value() == old(Value()).(status := EscalatedStatus(old(Value()), now))
    {
      SetResourceStatus(Escalated, now);
      approval := Some(approval.value.(escalatedAt := Some(now)));
    }

    /** The verdict of the verification, or inconclusive when the target could not be observed. */
    method CompleteVerification(verification: Verification, post: Option<Health>, observeFailed: bool, now: Time)
      requires effectiveness.Some? && effectiveness.value.baseline.Some?
      modifies this`effectiveness
      ensures Value() == old(Value()).(
                status := VerificationCompletedStatus(
                  old(Value()), EndOutcome(old(Value()), VerificationEnd(verification, post, observeFailed, now)),
                  if observeFailed then None else post, now))
    {
      var outcome := EffectivenessEvaluation.Evaluate(
        effectiveness.value.baseline, if observeFailed then None else post, Some(verification.finding));
      if observeFailed {
        outcome := Inconclusive;
      }
      effectiveness := Some(effectiveness.value.(phase := EffectivenessCompleted));
      effectiveness := Some(effectiveness.value.(outcome := outcome));
      effectiveness := Some(effectiveness.value.(finishedAt := Some(now)));
      if post.Some? && !observeFailed {
        effectiveness := Some(effectiveness.value.(postActionHealth := post));
      }
    }

    /** The plan controller's record of its decision on the action it owns. */
    method RecordDecision(evaluation: Guardrails.Evaluation, now: Time)
      modifies this`phase, this`observedGeneration, this`updatedAt, this`finishedAt, this`approval, this`dryRun
      ensures Value() == old(Value()).(status := DecisionStatus(old(Value()), evaluation, now))
    {
      dryRun := Some(DryRun(evaluation.dryRunResult, now));
      match evaluation.decision
      case Auto =>
        SetResourceStatus(Approved, now);
        approval := Some(Approval(true, evaluation.approvedBy,
                                  Guardrails.ApprovalSource(evaluation, GuardrailsAutoApproval), SpecDigest(spec),
                                  generation, None, Some(now), PolicyEngineDecider, None));
      case Manual =>
        SetResourceStatus(WaitingApproval, now);
        approval := Some(Approval(false, "", Guardrails.ApprovalSource(evaluation, ManualApprovalRequired),
                                  SpecDigest(spec), generation, None, Some(now), PolicyEngineDecider, None));
      case Reject =>
        SetResourceStatus(Rejected, now);
        finishedAt := Some(now);
        approval := Some(Approval(false, "", Guardrails.ApprovalSource(evaluation, GuardrailsRejected),
                                  SpecDigest(spec), generation, None, Some(now), PolicyEngineDecider, None));
    }

    /** Whether a terminal action is deleted by this pass. */
    method Expired(now: Time) returns (expired: bool)
      ensures expired == TTLExpired(Value(), now)
    {
      if spec.ttlSeconds == 0 {
        return false;
      }
      if retained {
        return false;
      }
      if finishedAt.None? {
        return false;
      }
      var expireTime := finishedAt.value + spec.ttlSeconds * SECOND;
      return now > expireTime;
    }
  }

  // ------------------------------------------------------------- verification names

  const VERIFY_INFIX := "-verify-"
  const MAX_NAME := 63
  const MAX_SUFFIX := 16

  function Prefix(s: string, n: nat): (p: string)
    ensures p <= s && |p| <= n
    ensures |s| <= n ==> p == s
  {
    if |s| > n then s[..n] else s
  }

  const ALGORITHM := "sha256:"

  function TrimAlgorithm(digest: string): string {
    if ALGORITHM <= digest then digest[|ALGORITHM|..] else digest
  }

  /** The part of a digest that goes into a name. */
  function Suffix(digest: string): (suffix: string)
    ensures |suffix| <= MAX_SUFFIX
    ensures |TrimAlgorithm(digest)| >= MAX_SUFFIX ==> |suffix| == MAX_SUFFIX
  {
    Prefix(TrimAlgorithm(digest), MAX_SUFFIX)
  }

  /**
    The name of the verification of one execution, where digest is that of the UID and the execution identity: a
    suffix from the digest after as much of the action's name as there is room for.
   */
  function VerificationName(actionName: string, digest: string): (name: string)
    ensures |name| <= MAX_NAME
    ensures |actionName| + |VERIFY_INFIX| + |Suffix(digest)| <= MAX_NAME ==>
              name == actionName + VERIFY_INFIX + Suffix(digest)
    ensures |actionName| + |VERIFY_INFIX| + |Suffix(digest)| > MAX_NAME ==>
              |name| == MAX_NAME && exists n :: 0 <= n < |actionName| && name == actionName[..n] + VERIFY_INFIX + Suffix(digest)
  {
    var suffix := Suffix(digest);
    var prefix := Prefix(actionName, MAX_NAME - |VERIFY_INFIX| - |suffix|);
    assert prefix == actionName[..|prefix|];
    prefix + VERIFY_INFIX + suffix
  }

  lemma NameEndsInSuffix(actionName: string, digest: string)
    ensures var name, n := VerificationName(actionName, digest), |Suffix(digest)|;
            |name| >= n && name[|name| - n..] == Suffix(digest)
  {
    hide Suffix;
  }

  /** Two executions get names that differ exactly as their suffixes do, whatever was cut from the action's name. */
  lemma VerificationNamesFollowTheHash(name0: string, digest0: string, name1: string, digest1: string)
    requires |Suffix(digest0)| == |Suffix(digest1)|
    ensures VerificationName(name0, digest0) == VerificationName(name1, digest1) ==> Suffix(digest0) == Suffix(digest1)
    ensures Suffix(digest0) == Suffix(digest1) ==> VerificationName(name0, digest0) == VerificationName(name0, digest1)
  {
    hide Suffix, VerificationName;
    NameEndsInSuffix(name0, digest0);
    NameEndsInSuffix(name1, digest1);
    SameSuffixSameName(name0, digest0, digest1);
  }

  lemma SameSuffixSameName(name: string, digest0: string, digest1: string)
    ensures Suffix(digest0) == Suffix(digest1) ==> VerificationName(name, digest0) == VerificationName(name, digest1)
  {
  }

  /** The digest that names the verification of what version a last executed. */
  function ExecutionDigest(hash: (string, ExecutionId) -> string, a: AgentAction): string {
    hash(a.uid, if a.status.execution.Some? then a.status.execution.value.executionID else NoIdentity)
  }

  /** Versions of one action that carry one execution identity ask for the same verification, whatever else changed. */
  lemma OneVerificationPerExecution(
    hash: (string, ExecutionId) -> string, name: string, a: AgentAction, w: Write)
    requires Legal(a, w) && a.status.execution.Some? && After(a, w).status.execution.Some?
    requires After(a, w).status.execution.value.executionID == a.status.execution.value.executionID
    ensures VerificationName(name, ExecutionDigest(hash, After(a, w))) == VerificationName(name, ExecutionDigest(hash, a))
  {
    hide VerificationName, NewStatus;
  }
}
