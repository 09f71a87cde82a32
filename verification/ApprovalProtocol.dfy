/**
  The approved-action protocol: any number of reconcile passes of both controllers, users and the cluster, interleaved
  between any two API calls. A read returns any version ever stored, an update succeeds only on the latest version,
  and a pass may stop for ever at any point.
 */
module ApprovalProtocol {
  import opened Wrappers
  import opened AgentActions
  import opened ActionHistory
  import opened Executor
  import Guardrails

  datatype Plan = Plan(targetUIDAnnotation: string, spec: PlanSpec, phase: Phase)

  /** One reconcile pass, at the point it has reached. Version and write numbers index the state's sequences. */
  datatype Task =
    | Idle
    | Observed(v: nat)
    | Notified(v: nat, now: Time)
    | Recorded(w: nat)
    | Patching(w: nat, patch: MergePatch)
    | Answered(w: nat, result: Result, error: Option<FailureReason>)
    | Reloaded(w: nat, result: Result, error: Option<FailureReason>, v: nat)
    | PlanObserved(p: nat)
    | PlanEvaluated(p: nat, evaluation: Guardrails.Evaluation)
    | PlanSaved(p: nat, evaluation: Guardrails.Evaluation, v: nat)
    | PlanDecided(p: nat, evaluation: Guardrails.Evaluation, v: nat)

  /**
    Stored versions with the latest last, the passes under way, and the log: calls lists the write that recorded each
    backend Execute call ahead of it, changes the identities of the patches that changed the pod template, departures
    the identity each patch replaced by another one, foreign counts outside changes of the two annotations, and named
    holds the approvers that users have written.
   */
  datatype State = State(
    uid: string, policy: Guardrails.Policy, hasNotifier: bool, named: set<string>,
    actions: seq<AgentAction>, writes: seq<Write>, deleted: bool, plans: seq<Plan>, deployments: seq<Deployment>,
    tasks: seq<Task>,
    calls: seq<nat>, changes: multiset<ExecutionId>, departures: multiset<ExecutionId>, foreign: nat)

  /** What happens outside the passes, a deletion by a user or the garbage collector among it, and the start of a pass. */
  datatype Outside =
    | UserCreates(spec: Spec, targetUIDAnnotation: string)
    | UserEdits(spec: Spec, targetUIDAnnotation: string, retained: bool)
    | ActionVanishes
    | UserEditsPlan(planSpec: PlanSpec, targetUIDAnnotation: string)
    | ClusterEdits(deployment: Deployment)
    | ReadAction(v: nat)
    | ReadPlan(p: nat)

  /** The next API call of a pass, with what the clock, the caches and the other side contribute to it. */
  datatype Move =
    | Crash
    | RecordExecution(seen: nat, capturedAt: Time, health: Health, now: Time)
    | RefuseDispatch(reason: FailureReason, evidenceOf: Option<Baseline>, now: Time)
    | ResolveExecution(seen: nat, now: Time)
    | ResetToPending(now: Time)
    | CheckDeadline(now: Time)
    | NotifierAnswers(failure: Option<string>)
    | StartVerification(name: string, now: Time)
    | EndVerification(verification: Verification, post: Option<Health>, observeFailed: bool, now: Time)
    | DeleteExpired(now: Time)
    | CallExecute(target: Option<nat>, other: Result, otherError: Option<FailureReason>, now: Time)
    | SendPatch(fault: PatchFault, now: Time)
    | ReloadAction(v: nat)
    | RecordOutcome(now: Time)
    | RejectForThreshold
    | PersistDefaults(ttlSeconds: int, approvalTimeoutSeconds: int)
    | EvaluatePlan(evaluation: Guardrails.Evaluation)
    | SaveAction(existing: Option<nat>, metadataChanged: bool)
    | RecordDecision(now: Time)
    | RecordPlan

  datatype Event = FromOutside(outside: Outside) | OfPass(t: nat, move: Move)

  /** What a pass asks for: a compare-and-set on the version it holds, or one of the other calls. */
  datatype Intent =
    | Stay
    | Become(next: Task)
    | Store(v: nat, write: Write, next: Task)
    | StorePlan(p: nat, plan: Plan, next: Task)
    | Make(action: AgentAction, next: Task)
    | Erase
    | Call(w: nat, next: Task)
    | Patch(patch: MergePatch, lands: bool, next: Task)

  // -------------------------------------------------------------- the plan's side

  const NO_SPEC :=
    Spec(Target("", "", "", OtherKind(""), NoApiVersion), UnroutedType(""), map[], "", NoDryRun, 0, 0, [])

  /** The spec that a plan and a decision give an action; a manual or rejecting decision keeps the approver. */
  function AppliedSpec(plan: Plan, evaluation: Guardrails.Evaluation, existing: Spec): Spec {
    Spec(plan.spec.target, plan.spec.actionType, plan.spec.parameters,
         if evaluation.decision == Guardrails.Auto then evaluation.approvedBy else existing.approvedBy,
         evaluation.dryRunResult, plan.spec.ttlSeconds,
         if evaluation.approvalTimeoutSeconds > 0 then evaluation.approvalTimeoutSeconds
         else plan.spec.approvalTimeoutSeconds,
         plan.spec.rollbackPlan)
  }

  function AppliedUID(plan: Plan, existing: string): string {
    if plan.targetUIDAnnotation != "" then plan.targetUIDAnnotation else existing
  }

  function PlanPhase(decision: Guardrails.Decision): Phase {
    match decision
    case Auto => Approved
    case Manual => WaitingApproval
    case Reject => Rejected
  }

  /** The legacy engine is a function of its policy; a matched ApprovalPolicy may decide anything, in the same name. */
  predicate MayEvaluate(policy: Guardrails.Policy, plan: Plan, evaluation: Guardrails.Evaluation) {
    (evaluation.decision == Guardrails.Auto ==> evaluation.approvedBy == Guardrails.AUTO_APPROVER)
    && (evaluation.policy.None? ==>
      evaluation == Guardrails.Evaluate(policy, plan.spec.target.namespace, plan.spec.actionType, plan.spec.severity))
  }

  function WithDefaults(plan: Plan, ttlSeconds: int, approvalTimeoutSeconds: int): Plan {
    plan.(spec := plan.spec.(
      ttlSeconds := if plan.spec.ttlSeconds == 0 && ttlSeconds > 0 then ttlSeconds else plan.spec.ttlSeconds,
      approvalTimeoutSeconds :=
        if plan.spec.approvalTimeoutSeconds == 0 && approvalTimeoutSeconds > 0 then approvalTimeoutSeconds
        else plan.spec.approvalTimeoutSeconds))
  }

  function PlanIntent(s: State, task: Task, m: Move): Intent {
    if (task.PlanObserved? || task.PlanEvaluated? || task.PlanSaved? || task.PlanDecided?) && task.p < |s.plans| then
      var plan := s.plans[task.p];
      match (task, m)
      case (PlanObserved(p), RejectForThreshold) => StorePlan(p, plan.(phase := Rejected), Idle)
      case (PlanObserved(p), PersistDefaults(ttl, timeout)) =>
        StorePlan(p, WithDefaults(plan, ttl, timeout), PlanObserved(p + 1))
      case (PlanObserved(p), EvaluatePlan(evaluation)) =>
        if MayEvaluate(s.policy, plan, evaluation) then Become(PlanEvaluated(p, evaluation)) else Stay
      case (PlanEvaluated(p, evaluation), SaveAction(existing, metadataChanged)) =>
        SaveIntent(s, p, evaluation, existing, metadataChanged)
      case (PlanSaved(p, evaluation, v), RecordDecision(now)) =>
        if v >= |s.actions| then Stay
        else if DecisionStatus(s.actions[v], evaluation, now) == s.actions[v].status
        then Become(PlanDecided(p, evaluation, v))
        else Store(v, PlanDecision(evaluation, now), PlanDecided(p, evaluation, |s.actions|))
      case (PlanDecided(p, evaluation, _), RecordPlan) =>
        StorePlan(p, plan.(phase := PlanPhase(evaluation.decision)), Idle)
      case _ => Stay
    else Stay
  }

  /** Create or update: a read that finds nothing creates, and an unchanged object is not written. */
  function SaveIntent(s: State, p: nat, evaluation: Guardrails.Evaluation, existing: Option<nat>, changed: bool): Intent
    requires p < |s.plans|
  {
    match existing
    case None =>
      if s.actions != [] then Become(Idle)
      else
        var spec := AppliedSpec(s.plans[p], evaluation, NO_SPEC);
        Make(AgentAction(s.uid, 1, AppliedUID(s.plans[p], ""), false, spec, EMPTY_STATUS), PlanSaved(p, evaluation, 0))
    case Some(v) =>
      if v >= |s.actions| then Stay
      else
        var a := s.actions[v];
        var spec := AppliedSpec(s.plans[p], evaluation, a.spec);
        var uid := AppliedUID(s.plans[p], a.targetUIDAnnotation);
        if spec == a.spec && uid == a.targetUIDAnnotation && !changed then Become(PlanSaved(p, evaluation, v))
        else Store(v, PlanSave(spec, uid), PlanSaved(p, evaluation, |s.actions|))
  }

  // ------------------------------------------------------------ the action's side

  /** The baseline that is captured before a dispatch, or None when the capture fails. */
  function CapturedBaseline(s: State, r: Request, seen: nat, capturedAt: Time, health: Health)
    : Option<Option<Baseline>>
  {
    match BackendFor(r.actionType)
    case KubernetesBackend =>
      if ValidRestart(r) && seen < |s.deployments| && s.deployments[seen].uid == r.targetUID
      then Some(Some(Baseline(capturedAt, r.targetUID, Some(health)))) else None
    case NoBackend => None
    case _ => Some(None)
  }

  /** A pass that has read version v, whose content is a. */
  function ActionIntent(s: State, v: nat, a: AgentAction, m: Move): Intent {
    match (Route(a), m)
    case (Dispatch, RecordExecution(seen, capturedAt, health, now)) =>
      var baseline := CapturedBaseline(s, DispatchRequest(a), seen, capturedAt, health);
      if baseline.Some? then Store(v, DispatchRecord(baseline.value, now), Recorded(v)) else Stay
    case (Dispatch, RefuseDispatch(reason, evidenceOf, now)) => Store(v, DispatchRefusal(reason, evidenceOf, now), Idle)
    case (ResolveOnly, ResolveExecution(seen, now)) =>
      if seen >= |s.deployments| then Stay
      else
        var r := PersistedRequest(a);
        var found := ResolveOn(Some(s.deployments[seen]), r);
        if found.Some? then Store(v, SuccessRecord(r, found.value, now), Idle) else Become(Idle)
    case (Pending, ResetToPending(now)) => if NeedsFreshPending(a) then Store(v, PendingRecord(now), Idle) else Stay
    case (Pending, CheckDeadline(now)) =>
      if !DeadlinePassed(a, now) then Become(Idle)
      else if s.hasNotifier then Store(v, NotifyAttempt(now), Notified(v + 1, now))
      else Store(v, Escalation(false, now), Idle)
    case (VerifyEffectiveness, StartVerification(name, now)) =>
      if Legal(a, VerificationStart(name, now)) then Store(v, VerificationStart(name, now), Idle) else Stay
    case (VerifyEffectiveness, EndVerification(verification, post, observeFailed, now)) =>
      var w := VerificationEnd(verification, post, observeFailed, now);
      if Legal(a, w) then Store(v, w, Idle) else Stay
    case (TerminalTTL, DeleteExpired(now)) => if TTLExpired(a, now) then Erase else Become(Idle)
    case _ => Stay
  }

  function SeenDeployment(s: State, seen: Option<nat>): Option<Deployment> {
    if seen.Some? && seen.value < |s.deployments| then Some(s.deployments[seen.value]) else None
  }

  /** A pass whose execution write w has been stored; r is the request it built before that write. */
  function BackendIntent(s: State, task: Task, r: Request, m: Move): Intent {
    match (task, m)
    case (Recorded(w), CallExecute(target, other, otherError, now)) =>
      (match BackendFor(r.actionType)
       case KubernetesBackend =>
         (match ExecuteOn(SeenDeployment(s, target), r)
          case Refused(reason) => Call(w, Answered(w, FailedResult(r, reason, OutcomeFailed, now), Some(reason)))
          case AlreadyRecorded => Call(w, Answered(w, SucceededResult(r, now), None))
          case MustPatch(patch) => Call(w, Patching(w, patch)))
       case _ => if other.executor.KubernetesExecutorName? then Stay else Call(w, Answered(w, other, otherError)))
    case (Patching(w, patch), SendPatch(fault, now)) =>
      var (result, error) := PatchAnswer(r, fault, now);
      Patch(patch, Lands(fault), Answered(w, result, error))
    case (Answered(w, result, error), ReloadAction(v)) =>
      if v < |s.actions| then Become(Reloaded(w, result, error, v)) else Stay
    case (Reloaded(w, result, error, v), RecordOutcome(now)) =>
      if error.None? then Store(v, SuccessRecord(r, result, now), Idle)
      else if result.outcome == OutcomeUnknown then Store(v, UnknownRecord(result, error.value, now), Idle)
      else Store(v, FailureRecord(error.value, now), Idle)
    case _ => Stay
  }

  /** Once the attempt is stored the notifier is called, and its answer decides what is stored next. */
  function NotifiedIntent(v: nat, now: Time, m: Move): Intent {
    match m
    case NotifierAnswers(failure) =>
      Store(v, if failure.Some? then NotifyFailure(failure.value) else Escalation(true, now), Idle)
    case _ => Stay
  }

  function IntentOf(s: State, task: Task, m: Move): Intent {
    match task
    case Observed(v) => if v < |s.actions| then ActionIntent(s, v, s.actions[v], m) else Stay
    case Notified(v, now) => NotifiedIntent(v, now, m)
    case Recorded(w) => RequestIntent(s, task, w, m)
    case Patching(w, _) => RequestIntent(s, task, w, m)
    case Answered(w, _, _) => RequestIntent(s, task, w, m)
    case Reloaded(w, _, _, _) => RequestIntent(s, task, w, m)
    case Idle => Stay
    case _ => PlanIntent(s, task, m)
  }

  function RequestIntent(s: State, task: Task, w: nat, m: Move): Intent {
    if w < |s.actions| && s.actions[w].status.approval.Some? then BackendIntent(s, task, DispatchRequest(s.actions[w]), m)
    else Stay
  }

  // ------------------------------------------------------------------- steps

  function Goto(s: State, t: nat, task: Task): State
    requires t < |s.tasks|
  {
    s.(tasks := s.tasks[t := task])
  }

  /** A write lands only on the latest version of an object that still exists; a conflict ends the pass. */
  predicate Accepted(s: State, intent: Intent) {
    match intent
    case Store(v, w, _) => !s.deleted && v + 1 == |s.actions| && Legal(s.actions[v], w)
    case StorePlan(p, _, _) => p + 1 == |s.plans|
    case Make(_, _) => s.actions == []
    case _ => true
  }

  function Landed(s: State, v: nat, w: Write): State
    requires v < |s.actions| && Legal(s.actions[v], w)
  {
    s.(actions := s.actions + [After(s.actions[v], w)], writes := s.writes + [w])
  }

  function PatchLanded(s: State, patch: MergePatch): State
    requires s.deployments != []
  {
    var live := s.deployments[|s.deployments| - 1];
    var patched := Patched(live, patch);
    s.(deployments := s.deployments + [patched],
       changes := if patched != live then s.changes + multiset{patch.executionID} else s.changes,
       departures :=
         if live.executionID != patch.executionID then s.departures + multiset{live.executionID} else s.departures)
  }

  function Effect(s: State, intent: Intent): State
    requires Accepted(s, intent)
  {
    match intent
    case Stay => s
    case Become(_) => s
    case Store(v, w, _) => Landed(s, v, w)
    case StorePlan(_, plan, _) => s.(plans := s.plans + [plan])
    case Make(action, _) => s.(actions := [action])
    case Erase => s.(deleted := true)
    case Call(w, _) => s.(calls := s.calls + [w])
    case Patch(patch, lands, _) => if lands && s.deployments != [] then PatchLanded(s, patch) else s
  }

  function NextTask(task: Task, intent: Intent): Task {
    match intent
    case Stay => task
    case Erase => Idle
    case _ => intent.next
  }

  function Perform(s: State, t: nat, intent: Intent): State
    requires t < |s.tasks|
  {
    if Accepted(s, intent) then Goto(Effect(s, intent), t, NextTask(s.tasks[t], intent)) else Goto(s, t, Idle)
  }

  function OutsideStep(s: State, o: Outside): State {
    match o
    case UserCreates(spec, uid) =>
      if s.actions != [] then s
      else
        s.(actions := [AgentAction(s.uid, 1, uid, false, spec, EMPTY_STATUS)], named := s.named + {spec.approvedBy})
    case UserEdits(spec, uid, retained) =>
      if s.deleted || s.actions == [] then s
      else
        var w := UserEdit(spec, uid, retained);
        s.(actions := s.actions + [After(s.actions[|s.actions| - 1], w)], writes := s.writes + [w],
           named := s.named + {spec.approvedBy})
    case ActionVanishes => s.(deleted := true)
    case UserEditsPlan(planSpec, uid) =>
      if s.plans == [] then s
      else s.(plans := s.plans + [Plan(uid, planSpec, s.plans[|s.plans| - 1].phase)])
    case ClusterEdits(deployment) =>
      if s.deployments == [] then s
      else
        var live := s.deployments[|s.deployments| - 1];
        s.(deployments := s.deployments + [deployment],
           foreign := if deployment.executionID == live.executionID && deployment.restartedBy == live.restartedBy
                      then s.foreign else s.foreign + 1)
    case ReadAction(v) => if v < |s.actions| then s.(tasks := s.tasks + [Observed(v)]) else s
    case ReadPlan(p) =>
      if p < |s.plans| && s.plans[p].phase == NoPhase then s.(tasks := s.tasks + [PlanObserved(p)]) else s
  }

  function Step(s: State, e: Event): State {
    match e
    case FromOutside(o) => OutsideStep(s, o)
    case OfPass(t, m) =>
      if t >= |s.tasks| then s
      else if m.Crash? then Goto(s, t, Idle)
      else Perform(s, t, IntentOf(s, s.tasks[t], m))
  }

  function Run(s: State, es: seq<Event>): State {
    if es == [] then s else Step(Run(s, es[..|es| - 1]), es[|es| - 1])
  }

  /** One undecided plan, one Deployment whose annotations the backend owns, no action and nothing under way. */
  predicate Initial(s: State) {
    s.actions == [] && s.writes == [] && !s.deleted && s.named == {} && s.tasks == [] && s.calls == []
    && s.changes == multiset{} && s.departures == multiset{} && s.foreign == 0
    && |s.plans| == 1 && s.plans[0].phase == NoPhase
    && |s.deployments| == 1
    && (s.deployments[0].executionID != NoIdentity ==> s.deployments[0].restartedBy == RestartedByFluxSeer)
  }
}
