/** The Kubernetes rollout-restart backend: a read, an identity check, and a merge patch of two template annotations. */
module Executor {
  import opened Wrappers
  import opened AgentActions

  /** The value of the restarted-by annotation. */
  datatype RestartMark = NotRestarted | RestartedByFluxSeer | RestartedByOther(who: string)

  /** A Deployment, with the two template annotations of the backend apart from the rest of the template. */
  datatype Deployment = Deployment(uid: string, executionID: ExecutionId, restartedBy: RestartMark, template: int)

  datatype Backend = KubernetesBackend | GitOpsBackend | RunbookBackend | NotificationBackend | NoBackend

  function BackendFor(actionType: ActionType): Backend {
    match actionType
    case RolloutRestart => KubernetesBackend
    case KubernetesType(_) => KubernetesBackend
    case GitOpsType(_) => GitOpsBackend
    case RunbookType(_) => RunbookBackend
    case NotificationType(_) => NotificationBackend
    case UnroutedType(_) => NoBackend
  }

  /** The prefix of an action type names its backend, and a type without a known one has none. */
  lemma BackendsByType(actionType: ActionType)
    ensures BackendFor(actionType).KubernetesBackend? <==> actionType.RolloutRestart? || actionType.KubernetesType?
    ensures BackendFor(actionType).GitOpsBackend? <==> actionType.GitOpsType?
    ensures BackendFor(actionType).RunbookBackend? <==> actionType.RunbookType?
    ensures BackendFor(actionType).NotificationBackend? <==> actionType.NotificationType?
  {
  }

  predicate ValidRestart(r: Request) {
    r.actionType == RolloutRestart && r.target.kind == DeploymentKind && !r.target.apiVersion.OtherApiVersion?
    && r.target.namespace != "" && r.target.name != "" && r.targetUID != ""
    && r.executionID != NoIdentity && r.idempotencyKey != NoIdentity
  }

  /** A merge patch: it names only what differs between the copy that was read and the changed copy. */
  datatype MergePatch = MergePatch(executionID: ExecutionId, setsRestartedBy: bool)

  function PatchFor(seen: Deployment, r: Request): MergePatch {
    MergePatch(r.executionID, seen.restartedBy != RestartedByFluxSeer)
  }

  /** The server applies a merge patch to whatever is current; the patch carries no resource version. */
  function Patched(live: Deployment, patch: MergePatch): Deployment {
    live.(executionID := patch.executionID,
          restartedBy := if patch.setsRestartedBy then RestartedByFluxSeer else live.restartedBy)
  }

  datatype ExecuteStep = Refused(reason: FailureReason) | AlreadyRecorded | MustPatch(patch: MergePatch)

  /** What Execute decides from the copy of the Deployment that its read returned (absent when not found). */
  function ExecuteOn(seen: Option<Deployment>, r: Request): ExecuteStep {
    if !ValidRestart(r) then Refused(ValidationFailed)
    else if seen.None? then Refused(TargetNotFound)
    else if seen.value.uid != r.targetUID then Refused(TargetUIDMismatch)
    else if seen.value.executionID == r.executionID then AlreadyRecorded
    else MustPatch(PatchFor(seen.value, r))
  }

  /** An Execute changes the template only of the very object that the action names, and only for a new identity. */
  lemma PatchesExactlyWhen(seen: Option<Deployment>, r: Request)
    ensures ExecuteOn(seen, r).MustPatch? <==>
            seen.Some? && seen.value.uid == r.targetUID && seen.value.executionID != r.executionID
            && r.actionType == RolloutRestart && r.target.kind == DeploymentKind
            && r.target.apiVersion in {NoApiVersion, AppsV1} && "" !in {r.target.namespace, r.target.name, r.targetUID}
            && NoIdentity !in {r.executionID, r.idempotencyKey}
    ensures ExecuteOn(seen, r).AlreadyRecorded? ==> seen.Some? && seen.value.uid == r.targetUID
  {
  }

  /** Resolve recovers a result exactly when the object that the action names carries its identity. */
  lemma ResolvesExactlyWhen(seen: Option<Deployment>, r: Request)
    ensures ResolveOn(seen, r).Some? <==>
            seen.Some? && seen.value.uid == r.targetUID && seen.value.executionID == r.executionID
            && r.actionType == RolloutRestart && r.target.kind == DeploymentKind
            && r.target.apiVersion in {NoApiVersion, AppsV1} && "" !in {r.target.namespace, r.target.name, r.targetUID}
            && NoIdentity !in {r.executionID, r.idempotencyKey}
    ensures ResolveOn(seen, r).Some? ==>
              ResolveOn(seen, r).value.executionID == r.executionID && ResolveOn(seen, r).value.outcome == OutcomeSucceeded
  {
  }

  /** Resolve only reads. It finds a result exactly when the copy it read carries the identity. */
  function ResolveOn(seen: Option<Deployment>, r: Request): Option<Result> {
    if r.actionType == RolloutRestart && ValidRestart(r) && seen.Some? && seen.value.uid == r.targetUID
       && seen.value.executionID == r.executionID
    then Some(Result(r.executionID, OutcomeSucceeded, NoReason, KubernetesExecutorName, ZERO_TIME))
    else None
  }

  function SucceededResult(r: Request, startedAt: Time): Result {
    Result(r.executionID, OutcomeSucceeded, NoReason, KubernetesExecutorName, startedAt)
  }

  function FailedResult(r: Request, reason: FailureReason, outcome: Outcome, startedAt: Time): Result {
    Result(r.executionID, outcome, reason, KubernetesExecutorName, startedAt)
  }

  /** How the API server treats one patch request. */
  datatype PatchFault = Applied | AppliedThenTimeout | AppliedThenError | LostThenTimeout | LostWithError

  predicate Lands(fault: PatchFault) {
    fault.Applied? || fault.AppliedThenTimeout? || fault.AppliedThenError?
  }

  function PatchAnswer(r: Request, fault: PatchFault, startedAt: Time): (Result, Option<FailureReason>) {
    match fault
    case Applied => (SucceededResult(r, startedAt), None)
    case AppliedThenTimeout => (FailedResult(r, TimeoutAfterDispatch, OutcomeUnknown, startedAt), Some(KubernetesPatchFailed))
    case LostThenTimeout => (FailedResult(r, TimeoutAfterDispatch, OutcomeUnknown, startedAt), Some(KubernetesPatchFailed))
    case AppliedThenError => (FailedResult(r, KubernetesPatchFailed, OutcomeFailed, startedAt), Some(KubernetesPatchFailed))
    case LostWithError => (FailedResult(r, KubernetesPatchFailed, OutcomeFailed, startedAt), Some(KubernetesPatchFailed))
  }

  /** The live object of one Deployment, patched in place. */
  class KubernetesExecutor {
    const hasClient: bool
    var live: Deployment

    constructor (hasClient: bool, live: Deployment)
      ensures this.hasClient == hasClient && this.live == live
    {
      this.hasClient := hasClient;
      this.live := live;
    }

    /** Execute on a copy that may be older than the live object; without a client it only simulates a success. */
    method Execute(seen: Option<Deployment>, r: Request, fault: PatchFault, startedAt: Time)
      returns (result: Result, error: Option<FailureReason>)
      modifies this
      ensures !hasClient ==> live == old(live) && error.None? && result == SucceededResult(r, startedAt)
      ensures hasClient ==>
              match ExecuteOn(seen, r)
              case Refused(reason) =>
                live == old(live) && error.Some? && result == FailedResult(r, reason, OutcomeFailed, startedAt)
              case AlreadyRecorded =>
                live == old(live) && error.None? && result == SucceededResult(r, startedAt)
              case MustPatch(patch) =>
                live == (if Lands(fault) then Patched(old(live), patch) else old(live))
                && (result, error) == PatchAnswer(r, fault, startedAt)
      ensures live != old(live) ==>
              hasClient && seen.Some? && seen.value.uid == r.targetUID && seen.value.executionID != r.executionID
              && r.actionType == RolloutRestart && r.target.kind == DeploymentKind
              && r.target.apiVersion in {NoApiVersion, AppsV1}
              && "" !in {r.target.namespace, r.target.name, r.targetUID}
              && NoIdentity !in {r.executionID, r.idempotencyKey}
      ensures live == old(live).(executionID := live.executionID, restartedBy := live.restartedBy)
              && live.executionID in {old(live).executionID, r.executionID}
              && live.restartedBy in {old(live).restartedBy, RestartedByFluxSeer}
      ensures hasClient && r.actionType == RolloutRestart && r.target.kind == DeploymentKind
              && r.target.apiVersion in {NoApiVersion, AppsV1}
              && "" !in {r.target.namespace, r.target.name, r.targetUID}
              && NoIdentity !in {r.executionID, r.idempotencyKey} ==>
                (seen.None? ==> live == old(live) && error == Some(TargetNotFound))
                && (seen.Some? && seen.value.uid != r.targetUID ==> live == old(live) && error == Some(TargetUIDMismatch))
                && (seen.Some? && seen.value.uid == r.targetUID && seen.value.executionID != r.executionID ==>
                      (fault in {Applied, AppliedThenTimeout, AppliedThenError} ==> live.executionID == r.executionID)
                      && (fault in {AppliedThenTimeout, LostThenTimeout} <==> result.outcome == OutcomeUnknown)
                      && (fault == Applied <==> error.None?))
    {
      if !hasClient {
        return SucceededResult(r, startedAt), None;
      }
      if r.actionType != RolloutRestart || r.target.kind != DeploymentKind
         || (r.target.apiVersion != NoApiVersion && r.target.apiVersion != AppsV1) {
        return FailedResult(r, ValidationFailed, OutcomeFailed, startedAt), Some(ValidationFailed);
      }
      if r.target.namespace == "" || r.target.name == "" || r.targetUID == "" || r.executionID == NoIdentity
         || r.idempotencyKey == NoIdentity {
        return FailedResult(r, ValidationFailed, OutcomeFailed, startedAt), Some(ValidationFailed);
      }
      if seen.None? {
        return FailedResult(r, TargetNotFound, OutcomeFailed, startedAt), Some(TargetNotFound);
      }
      var deployment := seen.value;
      if deployment.uid != r.targetUID {
        return FailedResult(r, TargetUIDMismatch, OutcomeFailed, startedAt), Some(TargetUIDMismatch);
      }
      if deployment.executionID == r.executionID {
        return SucceededResult(r, startedAt), None;
      }
      var original := deployment;
      deployment := deployment.(restartedBy := RestartedByFluxSeer);
      deployment := deployment.(executionID := r.executionID);
      if Lands(fault) {
        live := live.(executionID := deployment.executionID);
        if original.restartedBy != deployment.restartedBy {
          live := live.(restartedBy := deployment.restartedBy);
        }
      }
      if fault != Applied {
        var timeout := fault == AppliedThenTimeout || fault == LostThenTimeout;
        result := FailedResult(r, if timeout then TimeoutAfterDispatch else KubernetesPatchFailed,
                               if timeout then OutcomeUnknown else OutcomeFailed, startedAt);
        return result, Some(KubernetesPatchFailed);
      }
      return SucceededResult(r, startedAt), None;
    }
  }
}
