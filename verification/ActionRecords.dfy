/**
  What each write leaves on record: which fields of the stored action it changes and what they say afterwards. This is
  said of the stored versions, in whole seconds, apart from the functions that compute the updates.
 */
module ActionRecords {
  import opened Wrappers
  import opened AgentActions
  import opened ActionHistory
  import opened EffectivenessEvaluation
  import opened Guardrails

  /** The status has been through the store, whose times hold whole seconds. */
  predicate AsStored(s: Status) {
    Stored(s) == s
  }

  lemma StoredIsAsStored(s: Status)
    ensures AsStored(Stored(s))
  {
    WholeTwice(s.updatedAt);
    if s.effectiveness.Some? {
      StoredEffectivenessIsStored(s.effectiveness.value);
    }
    if s.execution.Some? {
      StoredExecutionIsStored(s.execution.value);
    }
    if s.notification.Some? {
      WholeTwice(s.notification.value.lastAttemptAt);
    }
    if s.dryRun.Some? {
      WholeTwice(s.dryRun.value.recordedAt);
    }
    WholeOfTwice(s.finishedAt);
    if s.approval.Some? {
      WholeOfTwice(s.approval.value.approvedAt);
      WholeOfTwice(s.approval.value.decidedAt);
      WholeOfTwice(s.approval.value.escalatedAt);
    }
  }

  lemma StoredEffectivenessIsStored(e: Effectiveness)
    ensures StoredEffectiveness(StoredEffectiveness(e)) == StoredEffectiveness(e)
  {
    WholeOfTwice(e.startedAt);
    WholeOfTwice(e.finishedAt);
    WholeOfTwice(e.settlingUntil);
    WholeOfTwice(e.observationUntil);
    if e.baseline.Some? {
      WholeTwice(e.baseline.value.capturedAt);
    }
  }

  lemma StoredExecutionIsStored(e: Execution)
    ensures StoredExecution(StoredExecution(e)) == StoredExecution(e)
  {
    WholeOfTwice(e.startedAt);
    WholeOfTwice(e.finishedAt);
  }

  lemma WholeTwice(t: Time)
    ensures WholeSeconds(WholeSeconds(t)) == WholeSeconds(t)
  {
  }

  lemma WholeOfTwice(t: Option<Time>)
    ensures WholeSecondsOf(WholeSecondsOf(t)) == WholeSecondsOf(t)
  {
  }

  /** The time is the later of now and the moment after another one, as stored. */
  predicate IsAfter(t: Time, now: Time, other: Option<Time>) {
    t == WholeSeconds(if other.Some? && now <= other.value then other.value + 1 else now)
  }

  // ------------------------------------------------------------------- what may be done

  /** The action has ended, or its execution is on record. */
  predicate Over(a: AgentAction) {
    a.status.phase in {Succeeded, Failed, Rejected}
    || (a.status.phase == Executing && a.status.execution.Some? && a.status.execution.value.executionID != NoIdentity)
  }

  /** The record is of this content, and says approved, or that a human must approve, who is then named in the spec. */
  predicate Granted(a: AgentAction) {
    a.status.approval.Some? && a.status.approval.value.actionDigest == SpecDigest(a.spec)
    && (a.status.approval.value.approved
        || (a.status.approval.value.source == ManualApprovalRequired && a.spec.approvedBy != ""))
  }

  /** A pass verifies, deletes, resolves, waits or dispatches, each exactly when. */
  lemma RoutesExactlyWhen(a: AgentAction)
    ensures Route(a) == VerifyEffectiveness <==> UnderVerification(a)
    ensures Route(a) == TerminalTTL <==> !UnderVerification(a) && a.status.phase in {Succeeded, Failed, Rejected}
    ensures Route(a) == ResolveOnly <==>
            !UnderVerification(a) && Over(a) && a.status.phase == Executing
    ensures Route(a) == Dispatch <==> !UnderVerification(a) && !Over(a) && Granted(a)
    ensures Route(a) == Pending <==> !UnderVerification(a) && !Over(a) && !Granted(a)
  {
  }

  /** The record is missing, or of other content. */
  predicate Outdated(a: AgentAction) {
    a.status.approval.None? || a.status.approval.value.actionDigest != SpecDigest(a.spec)
  }

  /** The action waits on an up to date record, and its time, counted from the last change of phase, is over. */
  predicate Overdue(a: AgentAction, now: Time) {
    !UnderVerification(a) && !Over(a) && !Granted(a) && !Outdated(a)
    && a.status.phase != Escalated && a.spec.approvalTimeoutSeconds > 0 && a.status.updatedAt != ZERO_TIME
    && now >= a.status.updatedAt + a.spec.approvalTimeoutSeconds * SECOND
  }

  /** The execution succeeded over a baseline, and this is after the settling period, if that is set. */
  predicate Settled(a: AgentAction, now: Time) {
    UnderVerification(a) && a.status.effectiveness.value.baseline.Some?
    && a.status.execution.Some? && a.status.execution.value.outcome == OutcomeSucceeded
    && match a.status.effectiveness.value.settlingUntil
       case None => true
       case Some(t) => t <= now
  }

  /** The writes that wait for something, each exactly when. */
  lemma WritesExactlyWhen(a: AgentAction, now: Time, name: string, verification: Verification, post: Option<Health>)
    ensures Legal(a, PendingRecord(now)) <==> !UnderVerification(a) && !Over(a) && !Granted(a) && Outdated(a)
    ensures Legal(a, NotifyAttempt(now)) <==> Overdue(a, now)
    ensures forall notified :: Legal(a, Escalation(notified, now)) <==> Overdue(a, now)
    ensures Legal(a, VerificationStart(name, now)) <==>
            Settled(a, now) && a.status.effectiveness.value.verificationRef.None?
    ensures forall observeFailed :: Legal(a, VerificationEnd(verification, post, observeFailed, now)) <==>
              Settled(a, now) && a.status.effectiveness.value.verificationRef.Some? && verification.terminal
              && (a.status.effectiveness.value.observationUntil.Some? ==>
                    a.status.effectiveness.value.observationUntil.value <= now)
    ensures TTLExpired(a, now) <==>
            !a.retained && a.spec.ttlSeconds != 0 && a.status.finishedAt.Some?
            && now - a.status.finishedAt.value > a.spec.ttlSeconds * SECOND
  {
    hide SpecDigest;
    RoutesExactlyWhen(a);
  }

  // ------------------------------------------------------------------- the dispatch

  /** Who approved: the automatic decision as it stands, or the human named in the spec, at the start. */
  predicate Signed(before: Approval, a: AgentAction, r: Approval, start: Time) {
    r.approved && r.actionDigest == SpecDigest(a.spec) && r.approvedGeneration == a.generation
    && r.decidedAt == before.decidedAt && r.decidedBy == before.decidedBy && r.escalatedAt == before.escalatedAt
    && (before.approved ==>
          r.approvedBy == before.approvedBy && r.source == before.source && r.approvedAt == before.approvedAt)
    && (!before.approved ==>
          r.approvedBy == a.spec.approvedBy != "" && r.source == ManualApprovalConfirmed && r.approvedAt == Some(start))
  }

  predicate DispatchLeft(a: AgentAction, baseline: Option<Baseline>, now: Time, b: AgentAction) {
    var s, t := a.status, b.status;
    && b == a.(status := t)
    && t == s.(phase := Executing, observedGeneration := a.generation, updatedAt := t.updatedAt, approval := t.approval,
               execution := t.execution, effectiveness := t.effectiveness)
    && IsAfter(t.updatedAt, now, if baseline.Some? then Some(baseline.value.capturedAt) else None)
    && s.approval.Some? && t.approval.Some? && Signed(s.approval.value, a, t.approval.value, t.updatedAt)
    && t.execution == Some(Execution(Some(ExecutionExecuting), NoOutcome, Identity(a), Identity(a), 1, NoReason, NoExecutor,
                                     Some(t.updatedAt), None))
    && (baseline.None? ==> t.effectiveness == s.effectiveness)
    && (baseline.Some? ==>
          HasBaseline(t) && BaselineOf(t) == baseline.value.(capturedAt := WholeSeconds(baseline.value.capturedAt))
          && t.effectiveness.value.phase == NotVerified && t.effectiveness.value.outcome == NoEffectivenessOutcome)
  }

  predicate RefusalLeft(a: AgentAction, reason: FailureReason, b: AgentAction) {
    var s, t := a.status, b.status;
    && b == a.(status := t)
    && t == s.(phase := Failed, observedGeneration := a.generation, updatedAt := t.updatedAt,
               finishedAt := Some(t.updatedAt), approval := t.approval, execution := t.execution,
               effectiveness := t.effectiveness)
    && t.execution == Some(Execution(Some(ExecutionFailed), OutcomeFailed, Identity(a), Identity(a), 1, reason, NoExecutor,
                                     None, Some(t.updatedAt)))
    && t.effectiveness.Some? && t.effectiveness.value.phase == NotVerified && !HasBaseline(t)
  }

  // -------------------------------------------------------------------- the outcome

  predicate SuccessLeft(a: AgentAction, request: Request, result: Result, now: Time, b: AgentAction) {
    var s, t := a.status, b.status;
    && b == a.(status := t)
    && t == s.(phase := Succeeded, observedGeneration := a.generation, updatedAt := t.updatedAt,
               finishedAt := Some(t.updatedAt), execution := t.execution, effectiveness := t.effectiveness)
    && t.execution.Some?
    && var e := t.execution.value;
       e == Execution(Some(ExecutionSucceeded), e.outcome, e.executionID, request.idempotencyKey, request.attempt,
                      result.failureReason, result.executor, e.startedAt, Some(t.updatedAt))
       && e.outcome == (if result.outcome == NoOutcome then OutcomeSucceeded else result.outcome)
       && e.executionID == (if result.executionID == NoIdentity then request.executionID else result.executionID)
       && t.effectiveness.Some?
       && (!HasBaseline(s) ==> t.effectiveness.value.phase == NotVerified && !HasBaseline(t))
       && (HasBaseline(s) ==>
             t.effectiveness == Some(s.effectiveness.value.(
               phase := Verifying, outcome := NoEffectivenessOutcome, startedAt := Some(t.updatedAt),
               settlingUntil := Some(WholeSeconds(now + 300 * SECOND)),
               observationUntil := Some(WholeSeconds(now + 420 * SECOND)))))
       && (s.execution.Some? && s.execution.value.startedAt.Some?
           && (HasBaseline(s) ==> BaselineOf(s).capturedAt < s.execution.value.startedAt.value) ==>
             e.startedAt == s.execution.value.startedAt)
  }

  /** The execution record that an error builds on. */
  function ExecutionBefore(s: Status): Execution {
    if s.execution.Some? then s.execution.value else EMPTY_EXECUTION
  }

  predicate UnknownLeft(a: AgentAction, result: Result, error: FailureReason, now: Time, b: AgentAction) {
    var s, t := a.status, b.status;
    var started := if s.execution.Some? then s.execution.value.startedAt else None;
    && b == a.(status := t)
    && t == s.(phase := Executing, observedGeneration := a.generation, updatedAt := t.updatedAt, execution := t.execution)
    && IsAfter(t.updatedAt, now, started)
    && t.execution == Some(ExecutionBefore(s).(
         phase := Some(ExecutionUnknown), outcome := result.outcome, finishedAt := Some(t.updatedAt),
         failureReason := if result.failureReason != NoReason then result.failureReason else error))
  }

  predicate FailureLeft(a: AgentAction, error: FailureReason, now: Time, b: AgentAction) {
    var s, t := a.status, b.status;
    var started := if s.execution.Some? then s.execution.value.startedAt else None;
    && b == a.(status := t)
    && t == s.(phase := Failed, observedGeneration := a.generation, updatedAt := t.updatedAt,
               finishedAt := Some(t.updatedAt), execution := t.execution)
    && IsAfter(t.updatedAt, now, started)
    && t.execution == Some(ExecutionBefore(s).(
         phase := Some(ExecutionFailed), outcome := OutcomeFailed, finishedAt := Some(t.updatedAt),
         failureReason := error))
  }

  // ------------------------------------------------------- decisions and their deadline

  predicate DecisionLeft(a: AgentAction, evaluation: Evaluation, now: Time, b: AgentAction) {
    var s, t, at := a.status, b.status, WholeSeconds(now);
    && b == a.(status := t)
    && t == s.(phase := t.phase, observedGeneration := a.generation, updatedAt := at, finishedAt := t.finishedAt,
               approval := t.approval, dryRun := Some(DryRun(evaluation.dryRunResult, at)))
    && t.approval.Some?
    && var r := t.approval.value;
       r == Approval(evaluation.decision.Auto?, if evaluation.decision.Auto? then evaluation.approvedBy else "", r.source,
                     SpecDigest(a.spec), a.generation, None, Some(at), PolicyEngineDecider, None)
       && (evaluation.policy.Some? ==>
             var p := evaluation.policy.value;
             r.source == PolicySource(p.kind, p.namespace, p.name, p.version))
       && match evaluation.decision
          case Auto =>
            t.phase == Approved && t.finishedAt == s.finishedAt
            && (evaluation.policy.None? ==> r.source == GuardrailsAutoApproval)
          case Manual =>
            t.phase == WaitingApproval && t.finishedAt == s.finishedAt
            && (evaluation.policy.None? ==> r.source == ManualApprovalRequired)
          case Reject =>
            t.phase == Rejected && t.finishedAt == Some(at)
            && (evaluation.policy.None? ==> r.source == GuardrailsRejected)
  }

  predicate PendingLeft(a: AgentAction, now: Time, b: AgentAction) {
    b == a.(status := a.status.(
           phase := WaitingApproval, observedGeneration := a.generation, updatedAt := WholeSeconds(now),
           approval := Some(Approval(false, "", PendingSource, SpecDigest(a.spec), a.generation, None, None, NoDecider, None))))
  }

  predicate AttemptLeft(a: AgentAction, now: Time, b: AgentAction) {
    var count := if a.status.notification.Some? then a.status.notification.value.retryCount else 0;
    b == a.(status := a.status.(notification := Some(Notification(WholeSeconds(now), count + 1, ""))))
  }

  predicate NotifyFailureLeft(a: AgentAction, error: string, b: AgentAction) {
    a.status.notification.Some?
    && b == a.(status := a.status.(notification := Some(a.status.notification.value.(lastError := error))))
  }

  predicate EscalationLeft(a: AgentAction, now: Time, b: AgentAction) {
    a.status.approval.Some?
    && b == a.(status := a.status.(
              phase := Escalated, observedGeneration := a.generation, updatedAt := WholeSeconds(now),
              approval := Some(a.status.approval.value.(escalatedAt := Some(WholeSeconds(now))))))
  }

  // ---------------------------------------------------------------- the verification

  predicate VerificationStartLeft(a: AgentAction, name: string, b: AgentAction) {
    a.status.effectiveness.Some?
    && b == a.(status := a.status.(effectiveness := Some(a.status.effectiveness.value.(verificationRef := Some(name)))))
  }

  predicate VerificationEndLeft(
    a: AgentAction, finding: InvestigationOutcome, post: Option<Health>, observeFailed: bool, now: Time, b: AgentAction)
  {
    HasBaseline(a.status)
    && var e := a.status.effectiveness.value;
       b == a.(status := a.status.(effectiveness := b.status.effectiveness)) && b.status.effectiveness.Some?
       && b.status.effectiveness.value
          == e.(phase := EffectivenessCompleted, outcome := b.status.effectiveness.value.outcome,
                finishedAt := Some(WholeSeconds(now)),
                postActionHealth := if observeFailed || post.None? then e.postActionHealth else post)
       && b.status.effectiveness.value.outcome
          == (if observeFailed then Inconclusive else EffectivenessEvaluation.Evaluate(e.baseline, post, Some(finding)))
  }

  predicate EditLeft(a: AgentAction, spec: Spec, uid: string, retained: bool, b: AgentAction) {
    b.spec == spec && b.targetUIDAnnotation == uid && b.retained == retained && b.status == a.status && b.uid == a.uid
    && (spec == a.spec ==> b.generation == a.generation) && (spec != a.spec ==> b.generation == a.generation + 1)
  }

  // ------------------------------------------------------------------------- all writes

  /** What write w, landing on version a, leaves in version b. */
  predicate Leaves(a: AgentAction, w: Write, b: AgentAction) {
    match w
    case UserEdit(spec, uid, retained) => EditLeft(a, spec, uid, retained, b)
    case PlanSave(spec, uid) => EditLeft(a, spec, uid, a.retained, b)
    case PlanDecision(evaluation, now) => DecisionLeft(a, evaluation, now, b)
    case DispatchRecord(baseline, now) => DispatchLeft(a, baseline, now, b)
    case DispatchRefusal(reason, _, _) => RefusalLeft(a, reason, b)
    case SuccessRecord(request, result, now) => SuccessLeft(a, request, result, now, b)
    case UnknownRecord(result, error, now) => UnknownLeft(a, result, error, now, b)
    case FailureRecord(error, now) => FailureLeft(a, error, now, b)
    case PendingRecord(now) => PendingLeft(a, now, b)
    case NotifyAttempt(now) => AttemptLeft(a, now, b)
    case NotifyFailure(error) => NotifyFailureLeft(a, error, b)
    case Escalation(_, now) => EscalationLeft(a, now, b)
    case VerificationStart(name, _) => VerificationStartLeft(a, name, b)
    case VerificationEnd(verification, post, observeFailed, now) =>
      VerificationEndLeft(a, verification.finding, post, observeFailed, now, b)
  }

  lemma EditLeaves(a: AgentAction, w: Write)
    requires w.UserEdit? || w.PlanSave?
    ensures Leaves(a, w, After(a, w))
  {
  }

  lemma DecisionLeaves(a: AgentAction, w: Write)
    requires AsStored(a.status) && w.PlanDecision?
    ensures Leaves(a, w, After(a, w))
  {
    hide SpecDigest, AsStored, DecisionLeft, After, ApprovalSource;
    match w.evaluation.decision
    case Auto => AutoLeaves(a, w.evaluation, w.now);
    case Manual => ManualLeaves(a, w.evaluation, w.now);
    case Reject => RejectLeaves(a, w.evaluation, w.now);
  }

  lemma AutoLeaves(a: AgentAction, evaluation: Evaluation, now: Time)
    requires AsStored(a.status) && evaluation.decision.Auto?
    ensures DecisionLeft(a, evaluation, now, After(a, PlanDecision(evaluation, now)))
  {
    hide SpecDigest, StoredExecution, StoredEffectiveness;
  }

  lemma ManualLeaves(a: AgentAction, evaluation: Evaluation, now: Time)
    requires AsStored(a.status) && evaluation.decision.Manual?
    ensures DecisionLeft(a, evaluation, now, After(a, PlanDecision(evaluation, now)))
  {
    hide SpecDigest, StoredExecution, StoredEffectiveness;
  }

  lemma RejectLeaves(a: AgentAction, evaluation: Evaluation, now: Time)
    requires AsStored(a.status) && evaluation.decision.Reject?
    ensures DecisionLeft(a, evaluation, now, After(a, PlanDecision(evaluation, now)))
  {
    hide SpecDigest, StoredExecution, StoredEffectiveness;
  }

  lemma DispatchLeaves(a: AgentAction, w: Write)
    requires AsStored(a.status) && Legal(a, w) && w.DispatchRecord?
    ensures Leaves(a, w, After(a, w))
  {
    hide SpecDigest, Identity, TargetUID;
  }

  /** A refusal keeps whatever the preparation of the dispatch had not touched. */
  lemma RefusedStatus(a: AgentAction, prepared: Status, reason: FailureReason, now: Time)
    requires AsStored(a.status) && a.status.approval.Some?
    requires prepared == a.status.(phase := prepared.phase, observedGeneration := prepared.observedGeneration,
                                   updatedAt := prepared.updatedAt, approval := prepared.approval,
                                   execution := prepared.execution, effectiveness := prepared.effectiveness)
    ensures RefusalLeft(a, reason, a.(status := Stored(
              FailBeforeDispatchStatus(a.(status := prepared), DispatchRequest(a), reason, now))))
  {
    hide SpecDigest, Identity, TargetUID, FinishedAt;
  }

  lemma RefusalLeaves(a: AgentAction, w: Write)
    requires AsStored(a.status) && Legal(a, w) && w.DispatchRefusal?
    ensures Leaves(a, w, After(a, w))
  {
    hide SpecDigest, Identity, TargetUID, FinishedAt, AsStored, RefusalLeft, Stored, FailBeforeDispatchStatus, Route;
    DispatchIsApproved(a);
    var prepared := if w.evidenceOf.Some? then DispatchStatus(a, w.evidenceOf, w.now) else a.status;
    RefusedStatus(a, prepared, w.reason, w.now);
  }

  lemma DispatchIsApproved(a: AgentAction)
    requires Route(a) == Dispatch
    ensures a.status.approval.Some?
  {
  }

  lemma SuccessLeaves(a: AgentAction, w: Write)
    requires AsStored(a.status) && w.SuccessRecord? && Legal(a, w)
    ensures Leaves(a, w, After(a, w))
  {
    hide SpecDigest;
  }

  lemma ErrorLeaves(a: AgentAction, w: Write)
    requires AsStored(a.status) && (w.UnknownRecord? || w.FailureRecord?)
    ensures Leaves(a, w, After(a, w))
  {
    hide SpecDigest;
  }

  lemma WaitingLeaves(a: AgentAction, w: Write)
    requires AsStored(a.status) && Legal(a, w)
    requires w.PendingRecord? || w.NotifyAttempt? || w.NotifyFailure? || w.Escalation?
    ensures Leaves(a, w, After(a, w))
  {
    hide SpecDigest;
  }

  lemma VerificationLeaves(a: AgentAction, w: Write)
    requires AsStored(a.status) && Legal(a, w) && (w.VerificationStart? || w.VerificationEnd?)
    ensures Leaves(a, w, After(a, w))
  {
    hide SpecDigest, EffectivenessEvaluation.Evaluate, IsApproved;
  }

  /** Every legal write leaves exactly this. */
  lemma EveryWriteLeaves(a: AgentAction, w: Write)
    requires AsStored(a.status) && Legal(a, w)
    ensures Leaves(a, w, After(a, w)) && AsStored(After(a, w).status)
  {
    hide AsStored, Legal, Leaves, NewStatus, Stored;
    if w.UserEdit? || w.PlanSave? {
      EditLeaves(a, w);
    } else {
      StoredIsAsStored(NewStatus(a, w));
      if w.PlanDecision? {
        DecisionLeaves(a, w);
      } else if w.DispatchRecord? {
        DispatchLeaves(a, w);
      } else if w.DispatchRefusal? {
        RefusalLeaves(a, w);
      } else if w.SuccessRecord? {
        SuccessLeaves(a, w);
      } else if w.UnknownRecord? || w.FailureRecord? {
        ErrorLeaves(a, w);
      } else if w.VerificationStart? || w.VerificationEnd? {
        VerificationLeaves(a, w);
      } else {
        WaitingLeaves(a, w);
      }
    }
  }

  lemma {:induction false} VersionsAreAsStored(h: History, k: nat)
    requires Serial(h) && k < |h.versions|
    ensures AsStored(h.versions[k].status)
  {
    hide AsStored, Legal, After;
    if k > 0 {
      VersionsAreAsStored(h, k - 1);
      assert Follows(h.versions[k - 1], h.writes[k - 1], h.versions[k]);
      EveryWriteLeaves(h.versions[k - 1], h.writes[k - 1]);
    } else {
      EmptyIsAsStored();
    }
  }

  lemma EmptyIsAsStored()
    ensures AsStored(EMPTY_STATUS)
  {
  }

  /** In every history each version is exactly what its write leaves on the version before it. */
  lemma HistoryIsOnRecord(h: History, k: nat)
    requires Serial(h) && k < |h.writes|
    ensures Leaves(h.versions[k], h.writes[k], h.versions[k + 1])
  {
    hide AsStored, Legal, After, Leaves;
    VersionsAreAsStored(h, k);
    assert Follows(h.versions[k], h.writes[k], h.versions[k + 1]);
    EveryWriteLeaves(h.versions[k], h.writes[k]);
  }

  // ----------------------------------------------------------------------- the requests

  /** Two versions share an execution identity exactly when they are of one object and ask for the same execution. */
  lemma IdentityExactlyWhen(a: AgentAction, b: AgentAction)
    ensures Identity(a) == Identity(b) <==>
            a.uid == b.uid && a.generation == b.generation && TargetUID(a) == TargetUID(b)
            && a.spec.(approvedBy := b.spec.approvedBy) == b.spec
    ensures Identity(a) != NoIdentity
  {
    DigestIgnoresOnlyTheApprover(a.spec, b.spec);
  }

  /** What is sent to the backend is what the spec asks for, under the action's own identity. */
  lemma RequestIsOfTheSpec(a: AgentAction)
    requires a.status.approval.Some?
    ensures var r := DispatchRequest(a);
            r.target == a.spec.target && r.actionType == a.spec.actionType && r.parameters == a.spec.parameters
            && r.dryRunResult == a.spec.dryRunResult && r.rollbackPlan == a.spec.rollbackPlan
            && r.actionDigest == SpecDigest(a.spec) && r.executionID == r.idempotencyKey == Identity(a) && r.attempt == 1
            && r.targetUID == TargetUID(a) && r.approvedBy == a.status.approval.value.approvedBy
  {
  }

  /** A later pass rebuilds from what was stored the request that was sent, with the approver on record. */
  lemma RequestIsRebuilt(a: AgentAction, baseline: Option<Baseline>, now: Time)
    requires AsStored(a.status) && Legal(a, DispatchRecord(baseline, now))
    ensures var b := After(a, DispatchRecord(baseline, now));
            b.status.approval.Some? && a.status.approval.Some?
            && PersistedRequest(b) == DispatchRequest(a).(approvedBy := b.status.approval.value.approvedBy)
  {
    hide AsStored, SpecDigest, Identity, After;
    DispatchLeaves(a, DispatchRecord(baseline, now));
  }
}
