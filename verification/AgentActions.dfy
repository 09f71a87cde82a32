/**
  The AgentAction object and the pure decisions and status updates of its controller. Every status update of the
  controller is a function from the object it read to the status it asks the API server to store; the state machine
  in ApprovalProtocol uses these functions, and the methods of AgentActionController are proved equal to them.
 */
module AgentActions {
  import opened Wrappers
  import Text

  /** Nanoseconds since the zero time of the clock; ZERO_TIME is what an unset timestamp holds. */
  type Time = int
  const ZERO_TIME: Time := 0
  const SECOND: int := 1_000_000_000
  const SETTLING_PERIOD: int := 300 * SECOND
  const OBSERVATION_WINDOW: int := 120 * SECOND

  /** Where an approval record comes from; Render gives the stored text. */
  datatype Source =
    | PendingSource
    | ManualApprovalRequired
    | ManualApprovalConfirmed
    | GuardrailsAutoApproval
    | GuardrailsRejected
    | PolicySource(kind: string, namespace: string, name: string, version: string)

  datatype Decider = NoDecider | PolicyEngineDecider

  /** Action types by the executor that their prefix selects; only the rollout restart is told apart further. */
  datatype ActionType =
    | RolloutRestart
    | KubernetesType(rest: string)
    | GitOpsType(rest: string)
    | RunbookType(rest: string)
    | NotificationType(rest: string)
    | UnroutedType(rest: string)

  datatype Kind = DeploymentKind | OtherKind(kind: string)
  datatype ApiVersion = NoApiVersion | AppsV1 | OtherApiVersion(version: string)

  datatype DryRunResult = NoDryRun | SafeToExecute | ApprovalRequired | RollbackPlanPresent | OtherDryRun(text: string)

  datatype FailureReason =
    | NoReason
    | ValidationFailed
    | TargetNotFound
    | TargetUIDMismatch
    | KubernetesPatchFailed
    | TimeoutAfterDispatch
    | BaselineCaptureFailed
    | BaselineEvidenceUnavailable
    | OtherReason(text: string)

  datatype ExecutorName = NoExecutor | KubernetesExecutorName | OtherExecutor(name: string)

  datatype Target = Target(cluster: string, namespace: string, name: string, kind: Kind, apiVersion: ApiVersion)

  datatype Spec = Spec(
    target: Target, actionType: ActionType, parameters: map<string, string>, approvedBy: string,
    dryRunResult: DryRunResult, ttlSeconds: int, approvalTimeoutSeconds: int, rollbackPlan: seq<string>)

  /** The SHA-256 of the canonical JSON of a spec, taken to be injective. */
  datatype Digest = Sha256(content: Spec)

  /** What an execution identity is derived from. */
  datatype IdentityInput = IdentityInput(
    actionUID: string, generation: nat, target: Target, targetUID: string, actionDigest: Digest,
    actionType: ActionType, parameters: map<string, string>)

  /** An execution identity: a non-empty string that is an injective function of its input, or the empty string. */
  datatype ExecutionId = NoIdentity | Exec(input: IdentityInput)

  datatype Phase = NoPhase | WaitingApproval | Approved | Rejected | Escalated | Executing | Succeeded | Failed

  datatype Approval = Approval(
    approved: bool, approvedBy: string, source: Source, actionDigest: Digest, approvedGeneration: nat,
    approvedAt: Option<Time>, decidedAt: Option<Time>, decidedBy: Decider, escalatedAt: Option<Time>)

  datatype Notification = Notification(lastAttemptAt: Time, retryCount: int, lastError: string)

  datatype DryRun = DryRun(result: DryRunResult, recordedAt: Time)

  datatype ExecutionPhase = ExecutionExecuting | ExecutionUnknown | ExecutionFailed | ExecutionSucceeded
  datatype Outcome = NoOutcome | OutcomeSucceeded | OutcomeFailed | OutcomeTimedOut | OutcomeUnknown | OutcomePartial

  datatype Execution = Execution(
    phase: Option<ExecutionPhase>, outcome: Outcome, executionID: ExecutionId, idempotencyKey: ExecutionId,
    attempt: int, failureReason: FailureReason, executor: ExecutorName, startedAt: Option<Time>, finishedAt: Option<Time>)

  const EMPTY_EXECUTION :=
    Execution(None, NoOutcome, NoIdentity, NoIdentity, 0, NoReason, NoExecutor, None, None)

  datatype ConditionType = Available | Progressing | OtherCondition(name: string)
  datatype ConditionStatus = ConditionTrue | ConditionFalse | OtherStatus(name: string)

  datatype HealthCondition = HealthCondition(kind: ConditionType, status: ConditionStatus, reason: string)

  datatype Health = Health(
    generation: int, observedGeneration: int, desiredReplicas: int, updatedReplicas: int, availableReplicas: int,
    readyReplicas: int, conditions: seq<HealthCondition>)

  datatype Baseline = Baseline(capturedAt: Time, targetUID: string, health: Option<Health>)

  datatype EffectivenessPhase = NotVerified | Verifying | EffectivenessCompleted
  datatype EffectivenessOutcome = NoEffectivenessOutcome | Effective | Ineffective | Regressed | Inconclusive

  datatype Effectiveness = Effectiveness(
    phase: EffectivenessPhase, outcome: EffectivenessOutcome, verificationRef: Option<string>,
    baseline: Option<Baseline>, postActionHealth: Option<Health>, startedAt: Option<Time>, finishedAt: Option<Time>,
    settlingUntil: Option<Time>, observationUntil: Option<Time>)

  datatype Status = Status(
    phase: Phase, observedGeneration: nat, updatedAt: Time, finishedAt: Option<Time>, approval: Option<Approval>,
    notification: Option<Notification>, dryRun: Option<DryRun>, execution: Option<Execution>,
    effectiveness: Option<Effectiveness>)

  const EMPTY_STATUS := Status(NoPhase, 0, ZERO_TIME, None, None, None, None, None, None)

  /** One stored version of the object. The target UID lives in an annotation that users may edit. */
  datatype AgentAction = AgentAction(
    uid: string, generation: nat, targetUIDAnnotation: string, retained: bool, spec: Spec, status: Status)

  /** What the controller hands to a backend. */
  datatype Request = Request(
    executionID: ExecutionId, idempotencyKey: ExecutionId, actionDigest: Digest, actionType: ActionType,
    target: Target,
    targetUID: string, parameters: map<string, string>, approvedBy: string, dryRunResult: DryRunResult,
    rollbackPlan: seq<string>, attempt: int)

  /** What a backend answers. An executionID of NoIdentity stands for the empty string. */
  datatype Result = Result(
    executionID: ExecutionId, outcome: Outcome, failureReason: FailureReason, executor: ExecutorName, startedAt: Time)

  // ---------------------------------------------------------------- decisions

  function SpecDigest(spec: Spec): Digest {
    Sha256(spec.(approvedBy := ""))
  }

  function Render(source: Source): string {
    match source
    case PendingSource => "Pending"
    case ManualApprovalRequired => "ManualApprovalRequired"
    case ManualApprovalConfirmed => "ManualApprovalConfirmed"
    case GuardrailsAutoApproval => "GuardrailsAutoApproval"
    case GuardrailsRejected => "GuardrailsRejected"
    case PolicySource(kind, namespace, name, version) => kind + "/" + namespace + "/" + name + "@" + version
  }

  /** The stored text tells the controller's own sources apart from each other and from every policy reference. */
  lemma RenderTellsSourcesApart(a: Source, b: Source)
    requires !b.PolicySource?
    ensures Render(a) == Render(b) <==> a == b
  {
    if a.PolicySource? {
      assert Render(a)[|a.kind|] == '/';
      assert '/' in Render(a);
      assert '/' !in Render(b);
    }
  }

  lemma DigestIgnoresOnlyTheApprover(a: Spec, b: Spec)
    ensures SpecDigest(a) == SpecDigest(b) <==> a.(approvedBy := b.approvedBy) == b
  {
  }

  predicate IsApproved(a: AgentAction) {
    match a.status.approval
    case None => false
    case Some(approval) =>
      approval.actionDigest == SpecDigest(a.spec)
      && (approval.approved || (approval.source == ManualApprovalRequired && a.spec.approvedBy != ""))
  }

  /** The branches of one reconcile pass, in the order in which they are tried. */
  datatype Branch = VerifyEffectiveness | TerminalTTL | ResolveOnly | Pending | Dispatch

  /** The effectiveness of an execution is being verified. */
  predicate UnderVerification(a: AgentAction) {
    a.status.effectiveness.Some? && a.status.effectiveness.value.phase == Verifying
  }

  predicate HasExecutionId(status: Status) {
    status.execution.Some? && status.execution.value.executionID != NoIdentity
  }

  function Route(a: AgentAction): Branch {
    if a.status.effectiveness.Some? && a.status.effectiveness.value.phase == Verifying then VerifyEffectiveness
    else if a.status.phase.Succeeded? || a.status.phase.Failed? || a.status.phase.Rejected? then TerminalTTL
    else if a.status.phase == Executing && HasExecutionId(a.status) then ResolveOnly
    else if !IsApproved(a) then Pending
    else Dispatch
  }

  function TargetUID(a: AgentAction): string {
    Text.TrimSpace(a.targetUIDAnnotation)
  }

  function Identity(a: AgentAction): ExecutionId {
    Exec(IdentityInput(a.uid, a.generation, a.spec.target, TargetUID(a), SpecDigest(a.spec), a.spec.actionType,
                       a.spec.parameters))
  }

  /** The request of a first dispatch. Its approver is read before a manual approval is filled in. */
  function DispatchRequest(a: AgentAction): Request
    requires a.status.approval.Some?
  {
    Request(Identity(a), Identity(a), SpecDigest(a.spec), a.spec.actionType, a.spec.target, TargetUID(a),
            a.spec.parameters, a.status.approval.value.approvedBy, a.spec.dryRunResult, a.spec.rollbackPlan, 1)
  }

  /** The request of a later pass, rebuilt from what is stored. An absent digest is shown as that of the spec. */
  function PersistedRequest(a: AgentAction): Request {
    var approval := a.status.approval;
    var execution := if a.status.execution.Some? then a.status.execution.value else EMPTY_EXECUTION.(attempt := 1);
    Request(execution.executionID, execution.idempotencyKey,
            if approval.Some? then approval.value.actionDigest else SpecDigest(a.spec),
            a.spec.actionType, a.spec.target, TargetUID(a), a.spec.parameters,
            if approval.Some? then approval.value.approvedBy else a.spec.approvedBy,
            a.spec.dryRunResult, a.spec.rollbackPlan, execution.attempt)
  }

  // ------------------------------------------------------------ status updates

  function SetResource(status: Status, phase: Phase, generation: nat, now: Time): Status {
    status.(phase := phase, observedGeneration := generation, updatedAt := now)
  }

  function FinishedAt(execution: Option<Execution>, now: Time): (t: Time)
    ensures t >= now
    ensures execution.Some? && execution.value.startedAt.Some? ==> t > execution.value.startedAt.value
  {
    if execution.Some? && execution.value.startedAt.Some? && now <= execution.value.startedAt.value
    then execution.value.startedAt.value + 1
    else now
  }

  function DispatchStart(baseline: Option<Baseline>, now: Time): (t: Time)
    ensures t >= now
    ensures baseline.Some? ==> t > baseline.value.capturedAt
  {
    if baseline.Some? && now <= baseline.value.capturedAt then baseline.value.capturedAt + 1 else now
  }

  /** The status written ahead of the backend call. */
  function DispatchStatus(a: AgentAction, baseline: Option<Baseline>, now: Time): Status
    requires a.status.approval.Some?
  {
    var approval := a.status.approval.value;
    var startedAt := DispatchStart(baseline, now);
    var request := DispatchRequest(a);
    SetResource(a.status, Executing, a.generation, startedAt).(
      approval := Some(Approval(
        true,
        if approval.approved then approval.approvedBy else a.spec.approvedBy,
        if approval.approved then approval.source else ManualApprovalConfirmed,
        SpecDigest(a.spec),
        a.generation,
        if approval.approved then approval.approvedAt else Some(startedAt),
        approval.decidedAt,
        approval.decidedBy,
        approval.escalatedAt)),
      execution := Some(Execution(Some(ExecutionExecuting), NoOutcome, request.executionID, request.idempotencyKey,
                                  request.attempt, NoReason, NoExecutor, Some(startedAt), None)),
      effectiveness :=
        if baseline.Some?
        then Some(Effectiveness(NotVerified, NoEffectivenessOutcome, None, baseline, None, None, None, None, None))
        else a.status.effectiveness)
  }

  function FailBeforeDispatchStatus(a: AgentAction, request: Request, reason: FailureReason, now: Time): Status {
    var finishedAt := FinishedAt(a.status.execution, now);
    SetResource(a.status, Failed, a.generation, finishedAt).(
      finishedAt := Some(finishedAt),
      execution := Some(Execution(Some(ExecutionFailed), OutcomeFailed, request.executionID, request.idempotencyKey,
                                  request.attempt, reason, NoExecutor, None, Some(finishedAt))),
      effectiveness :=
        Some(Effectiveness(NotVerified, NoEffectivenessOutcome, None, None, None, None, None, None, None)))
  }

  function UnknownOutcomeStatus(a: AgentAction, result: Result, error: FailureReason, now: Time): Status {
    var finishedAt := FinishedAt(a.status.execution, now);
    var execution := if a.status.execution.Some? then a.status.execution.value else EMPTY_EXECUTION;
    SetResource(a.status, Executing, a.generation, finishedAt).(
      execution := Some(execution.(phase := Some(ExecutionUnknown), outcome := result.outcome,
                                   failureReason := if result.failureReason == NoReason then error else result.failureReason,
                                   finishedAt := Some(finishedAt))))
  }

  function FailureStatus(a: AgentAction, error: FailureReason, now: Time): Status {
    var finishedAt := FinishedAt(a.status.execution, now);
    var execution := if a.status.execution.Some? then a.status.execution.value else EMPTY_EXECUTION;
    SetResource(a.status, Failed, a.generation, finishedAt).(
      finishedAt := Some(finishedAt),
      execution := Some(execution.(phase := Some(ExecutionFailed), outcome := OutcomeFailed, failureReason := error,
                                   finishedAt := Some(finishedAt))))
  }

  /** The start of the execution that a success record keeps, moved past the baseline when it does not follow it. */
  function RecordedStart(a: AgentAction, result: Result): Option<Time> {
    var kept :=
      if a.status.execution.Some? && a.status.execution.value.startedAt.Some? then a.status.execution.value.startedAt
      else if result.startedAt != ZERO_TIME then Some(result.startedAt) else None;
    if HasBaseline(a.status) && (kept.None? || BaselineOf(a.status).capturedAt >= kept.value)
    then Some(BaselineOf(a.status).capturedAt + SECOND)
    else kept
  }

  predicate HasBaseline(status: Status) {
    status.effectiveness.Some? && status.effectiveness.value.baseline.Some?
  }

  function BaselineOf(status: Status): Baseline
    requires HasBaseline(status)
  {
    status.effectiveness.value.baseline.value
  }

  function SuccessStatus(a: AgentAction, request: Request, result: Result, now: Time): Status {
    var started := RecordedStart(a, result);
    var execution := Execution(
      Some(ExecutionSucceeded),
      if result.outcome == NoOutcome then OutcomeSucceeded else result.outcome,
      if result.executionID == NoIdentity then request.executionID else result.executionID,
      request.idempotencyKey, request.attempt, result.failureReason, result.executor, started, None);
    var finishedAt := FinishedAt(Some(execution), now);
    SetResource(a.status, Succeeded, a.generation, finishedAt).(
      finishedAt := Some(finishedAt),
      execution := Some(execution.(finishedAt := Some(finishedAt))),
      effectiveness := Some(
        if HasBaseline(a.status)
        then a.status.effectiveness.value.(
               phase := Verifying, outcome := NoEffectivenessOutcome, startedAt := Some(finishedAt),
               settlingUntil := Some(now + SETTLING_PERIOD),
               observationUntil := Some(now + SETTLING_PERIOD + OBSERVATION_WINDOW))
        else Effectiveness(NotVerified, NoEffectivenessOutcome, None, None, None, None, None, None, None)))
  }

  function PendingStatus(a: AgentAction, now: Time): Status {
    SetResource(a.status, WaitingApproval, a.generation, now).(
      approval := Some(Approval(false, "", PendingSource, SpecDigest(a.spec), a.generation, None, None, NoDecider, None)))
  }

  /** A pending pass only replaces an approval record that is missing or made for other content. */
  predicate NeedsFreshPending(a: AgentAction) {
    a.status.approval.None? || a.status.approval.value.actionDigest != SpecDigest(a.spec)
  }

  predicate TimeoutApplies(a: AgentAction) {
    a.status.phase != Escalated && a.spec.approvalTimeoutSeconds > 0 && a.status.updatedAt != ZERO_TIME
  }

  function Deadline(a: AgentAction): Time {
    a.status.updatedAt + a.spec.approvalTimeoutSeconds * SECOND
  }

  function NotifyAttemptStatus(a: AgentAction, now: Time): Status {
    a.status.(notification := Some(Notification(
      now, if a.status.notification.Some? then a.status.notification.value.retryCount + 1 else 1, "")))
  }

  function NotifyFailedStatus(a: AgentAction, error: string): Status
    requires a.status.notification.Some?
  {
    a.status.(notification := Some(a.status.notification.value.(lastError := error)))
  }

  function EscalatedStatus(a: AgentAction, now: Time): Status
    requires a.status.approval.Some?
  {
    SetResource(a.status, Escalated, a.generation, now).(
      approval := Some(a.status.approval.value.(escalatedAt := Some(now))))
  }

  predicate AwaitsVerification(a: AgentAction) {
    HasBaseline(a.status) && a.status.execution.Some? && a.status.execution.value.outcome == OutcomeSucceeded
  }

  predicate Reached(until: Option<Time>, now: Time) {
    until.None? || until.value <= now
  }

  function VerificationStartedStatus(a: AgentAction, name: string): Status
    requires a.status.effectiveness.Some?
  {
    a.status.(effectiveness := Some(a.status.effectiveness.value.(verificationRef := Some(name))))
  }

  function VerificationCompletedStatus(
    a: AgentAction, outcome: EffectivenessOutcome, post: Option<Health>, now: Time): Status
    requires a.status.effectiveness.Some?
  {
    var effectiveness := a.status.effectiveness.value;
    a.status.(effectiveness := Some(effectiveness.(
      phase := EffectivenessCompleted, outcome := outcome, finishedAt := Some(now),
      postActionHealth := if post.Some? then post else effectiveness.postActionHealth)))
  }

  predicate TTLExpired(a: AgentAction, now: Time) {
    a.spec.ttlSeconds != 0 && !a.retained && a.status.finishedAt.Some?
    && now > a.status.finishedAt.value + a.spec.ttlSeconds * SECOND
  }

  // ----------------------------------------------------------- what is stored

  function WholeSeconds(t: Time): (r: Time)
    ensures r <= t < r + SECOND && r % SECOND == 0
  {
    t - t % SECOND
  }

  function WholeSecondsOf(t: Option<Time>): Option<Time> {
    if t.Some? then Some(WholeSeconds(t.value)) else None
  }

  /** The status as it comes back from the API server, whose timestamps hold whole seconds. */
  function Stored(s: Status): Status {
    s.(updatedAt := WholeSeconds(s.updatedAt),
       finishedAt := WholeSecondsOf(s.finishedAt),
       approval :=
         if s.approval.None? then None
         else Some(s.approval.value.(
                     approvedAt := WholeSecondsOf(s.approval.value.approvedAt),
                     decidedAt := WholeSecondsOf(s.approval.value.decidedAt),
                     escalatedAt := WholeSecondsOf(s.approval.value.escalatedAt))),
       notification :=
         if s.notification.None? then None
         else Some(s.notification.value.(lastAttemptAt := WholeSeconds(s.notification.value.lastAttemptAt))),
       dryRun :=
         if s.dryRun.None? then None
         else Some(s.dryRun.value.(recordedAt := WholeSeconds(s.dryRun.value.recordedAt))),
       execution := if s.execution.None? then None else Some(StoredExecution(s.execution.value)),
       effectiveness := if s.effectiveness.None? then None else Some(StoredEffectiveness(s.effectiveness.value)))
  }

  function StoredExecution(e: Execution): Execution {
    e.(startedAt := WholeSecondsOf(e.startedAt), finishedAt := WholeSecondsOf(e.finishedAt))
  }

  function StoredEffectiveness(e: Effectiveness): Effectiveness {
    e.(baseline :=
         if e.baseline.None? then None
         else Some(e.baseline.value.(capturedAt := WholeSeconds(e.baseline.value.capturedAt))),
       startedAt := WholeSecondsOf(e.startedAt),
       finishedAt := WholeSecondsOf(e.finishedAt),
       settlingUntil := WholeSecondsOf(e.settlingUntil),
       observationUntil := WholeSecondsOf(e.observationUntil))
  }
}
