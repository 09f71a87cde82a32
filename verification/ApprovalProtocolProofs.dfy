/** What every interleaving of the approved-action protocol keeps. */
module ApprovalProtocolProofs {
  import opened Wrappers
  import opened AgentActions
  import opened ActionHistory
  import opened Executor
  import opened ApprovalProtocol
  import Guardrails

  function HistoryOf(s: State): History {
    History(s.actions, s.writes)
  }

  // -------------------------------------------------------- what a pass may rely on

  /** Some stored Deployment carried this identity. */
  ghost predicate Carried(s: State, id: ExecutionId) {
    exists i :: 0 <= i < |s.deployments| && s.deployments[i].executionID == id
  }

  /** A version that records this decision, made for its own content. */
  predicate Records(a: AgentAction, decision: Guardrails.Decision) {
    a.status.phase == PlanPhase(decision) && a.status.approval.Some?
    && a.status.approval.value.decidedBy == PolicyEngineDecider
    && a.status.approval.value.approved == (decision == Guardrails.Auto)
    && a.status.approval.value.actionDigest == SpecDigest(a.spec)
  }

  predicate RecordsDecision(s: State, v: int, decision: Guardrails.Decision) {
    0 <= v < |s.actions| && Records(s.actions[v], decision)
  }

  predicate Undecided(s: State, p: int) {
    0 <= p < |s.plans| && s.plans[p].phase == NoPhase
  }

  /** The content of version v is what plan version p, then undecided, and this evaluation give. */
  predicate FromPlan(s: State, p: int, evaluation: Guardrails.Evaluation, v: int) {
    0 <= p < |s.plans| && 0 <= v < |s.actions| && Undecided(s, p) && MayEvaluate(s.policy, s.plans[p], evaluation)
    && SpecDigest(s.actions[v].spec) == SpecDigest(AppliedSpec(s.plans[p], evaluation, NO_SPEC))
  }

  /** The name is the approver that an automatic decision about some stored plan gives. */
  predicate AutoNamedBy(s: State, p: int, evaluation: Guardrails.Evaluation, name: string) {
    0 <= p < |s.plans| && MayEvaluate(s.policy, s.plans[p], evaluation) && evaluation.decision == Guardrails.Auto
    && evaluation.approvedBy == name
  }

  /** A user wrote this approver, or an automatic decision gave it; or there is none. */
  ghost predicate Named(s: State, name: string) {
    name == "" || name in s.named || exists p, evaluation :: AutoNamedBy(s, p, evaluation, name)
  }

  lemma AppliedApproverIsNamed(s: State, p: nat, evaluation: Guardrails.Evaluation, existing: Spec)
    requires p < |s.plans| && MayEvaluate(s.policy, s.plans[p], evaluation)
    ensures var name := AppliedSpec(s.plans[p], evaluation, existing).approvedBy;
            name == existing.approvedBy || Named(s, name)
  {
    hide MayEvaluate;
    if evaluation.decision == Guardrails.Auto {
      assert AutoNamedBy(s, p, evaluation, evaluation.approvedBy);
    }
  }

  /** Some stored Deployment is the object that the request is about. */
  ghost predicate TargetSeen(s: State, r: Request) {
    exists i :: 0 <= i < |s.deployments| && s.deployments[i].uid == r.targetUID
  }

  /** The baseline is of the object that the action names, as some stored Deployment version was. */
  ghost predicate OfTheTarget(s: State, a: AgentAction, baseline: Baseline) {
    baseline.targetUID == TargetUID(a) != ""
    && exists i :: 0 <= i < |s.deployments| && s.deployments[i].uid == baseline.targetUID
  }

  lemma CapturedIsOfTheTarget(s: State, a: AgentAction, seen: nat, capturedAt: Time, health: Health)
    requires a.status.approval.Some?
    ensures var captured := CapturedBaseline(s, DispatchRequest(a), seen, capturedAt, health);
            captured.Some? && captured.value.Some? ==> OfTheTarget(s, a, captured.value.value)
    ensures BackendFor(a.spec.actionType) == KubernetesBackend ==>
              var captured := CapturedBaseline(s, DispatchRequest(a), seen, capturedAt, health);
              captured.Some? ==> captured.value.Some?
  {
    hide TargetUID, SpecDigest, Identity;
  }

  predicate IsDispatch(s: State, w: int) {
    0 <= w < |s.writes| && w < |s.actions| && s.writes[w].DispatchRecord? && s.actions[w].status.approval.Some?
  }

  /** A success that the Kubernetes backend reports names an identity that the template carried. */
  ghost predicate TrueSuccess(s: State, result: Result) {
    result.executor.KubernetesExecutorName? ==> result.executionID != NoIdentity && Carried(s, result.executionID)
  }

  /** Version v is what the attempt record of an escalation stored, and its deadline has passed. */
  predicate Announced(s: State, v: nat, now: Time) {
    0 < v < |s.actions| && v <= |s.writes| && s.writes[v - 1] == NotifyAttempt(now)
    && DeadlinePassed(s.actions[v], now) && s.actions[v].status.notification.Some?
  }

  /** Some stored Deployment carried the backend's restarted-by mark. */
  ghost predicate Marked(s: State) {
    exists i :: 0 <= i < |s.deployments| && s.deployments[i].restartedBy == RestartedByFluxSeer
  }

  ghost predicate TaskOk(s: State, task: Task) {
    match task
    case Idle => true
    case Observed(v) => v < |s.actions|
    case Notified(v, now) => Announced(s, v, now)
    case Recorded(w) => IsDispatch(s, w)
    case Patching(w, patch) =>
      IsDispatch(s, w) && patch.executionID == DispatchRequest(s.actions[w]).executionID
      && ValidRestart(DispatchRequest(s.actions[w])) && TargetSeen(s, DispatchRequest(s.actions[w]))
      && (!patch.setsRestartedBy ==> Marked(s))
    case Answered(w, result, error) => IsDispatch(s, w) && (error.None? ==> TrueSuccess(s, result))
    case Reloaded(w, result, error, v) =>
      IsDispatch(s, w) && v < |s.actions| && (error.None? ==> TrueSuccess(s, result))
    case PlanObserved(p) => Undecided(s, p)
    case PlanEvaluated(p, evaluation) => Undecided(s, p) && MayEvaluate(s.policy, s.plans[p], evaluation)
    case PlanSaved(p, evaluation, v) => FromPlan(s, p, evaluation, v)
    case PlanDecided(p, evaluation, v) => p < |s.plans| && RecordsDecision(s, v, evaluation.decision)
  }

  /** The stores only grow. */
  ghost predicate Grows(s: State, r: State) {
    s.actions <= r.actions && s.writes <= r.writes && s.plans <= r.plans && s.deployments <= r.deployments
    && s.policy == r.policy && s.named <= r.named
  }

  lemma TaskOkStays(s: State, r: State, task: Task)
    requires TaskOk(s, task) && Grows(s, r)
    ensures TaskOk(r, task)
  {
    hide DeadlinePassed, Records, MayEvaluate, AppliedSpec, SpecDigest, Identity, DispatchRequest, ValidRestart;
    if task.Patching? {
      var uid := DispatchRequest(s.actions[task.w]).targetUID;
      var i :| 0 <= i < |s.deployments| && s.deployments[i].uid == uid;
      assert r.deployments[i].uid == uid;
    }
    if task.Patching? && !task.patch.setsRestartedBy {
      var i :| 0 <= i < |s.deployments| && s.deployments[i].restartedBy == RestartedByFluxSeer;
      assert r.deployments[i] == s.deployments[i];
    }
  }

  // ------------------------------------------------------- what a pass may ask for

  /** A write fits the point that its pass has reached and the point that it reaches once the write has landed. */
  ghost predicate StoreOk(s: State, v: nat, w: Write, next: Task) {
    && v < |s.actions| && !w.UserEdit?
    && (w.DispatchRecord? ==> next.Recorded?)
    && (w.PlanDecision? ==> exists p :: FromPlan(s, p, w.evaluation, v))
    && (w.DispatchRecord? && w.baseline.Some? ==> OfTheTarget(s, s.actions[v], w.baseline.value))
    && (w.PlanSave? ==> w.spec.approvedBy == s.actions[v].spec.approvedBy || Named(s, w.spec.approvedBy))
    && (w.SuccessRecord? ==> TrueSuccess(s, w.result))
    && (w.Escalation? && s.hasNotifier ==> w.notified && 0 < v <= |s.writes| && s.writes[v - 1] == NotifyAttempt(w.now))
    && match next
       case Idle => true
       case Notified(n, now) => n == v + 1 && w == NotifyAttempt(now)
       case Recorded(n) => n == v && w.DispatchRecord? && s.actions[v].status.approval.Some?
       case PlanSaved(p, evaluation, n) =>
         n == |s.actions| && w.PlanSave? && Undecided(s, p) && MayEvaluate(s.policy, s.plans[p], evaluation)
         && SpecDigest(w.spec) == SpecDigest(AppliedSpec(s.plans[p], evaluation, NO_SPEC))
       case PlanDecided(p, evaluation, n) =>
         n == |s.actions| && w.PlanDecision? && w.evaluation == evaluation && p < |s.plans|
       case _ => false
  }

  /** The attempt record leaves the action waiting, past the same deadline. */
  lemma StillWaiting(a: AgentAction, now: Time)
    requires Legal(a, NotifyAttempt(now)) && a.status.updatedAt % SECOND == 0
    ensures var b := After(a, NotifyAttempt(now));
            DeadlinePassed(b, now) && b.status.notification.Some?
  {
  }

  lemma LandedTaskOk(s: State, v: nat, w: Write, next: Task)
    requires StoreOk(s, v, w, next) && Legal(s.actions[v], w) && v + 1 == |s.actions| == |s.writes| + 1
    requires s.actions[v].status.updatedAt % SECOND == 0
    ensures TaskOk(Landed(s, v, w), next)
  {
    match next
    case Notified(_, now) => StillWaiting(s.actions[v], now);
    case PlanDecided(_, evaluation, _) => DecisionIsRecorded(s.actions[v], evaluation, w.now);
    case _ =>
  }

  lemma DecisionIsRecorded(a: AgentAction, evaluation: Guardrails.Evaluation, now: Time)
    ensures Records(After(a, PlanDecision(evaluation, now)), evaluation.decision)
  {
  }

  predicate Decisive(phase: Phase) {
    phase.Approved? || phase.WaitingApproval?
  }

  function DecisionOf(phase: Phase): Guardrails.Decision {
    if phase.Approved? then Guardrails.Auto else if phase.WaitingApproval? then Guardrails.Manual else Guardrails.Reject
  }

  /** A plan that looks decided has its decision on record in the action. */
  ghost predicate PlanBacked(s: State, plan: Plan) {
    Decisive(plan.phase) ==>
      exists v :: RecordsDecision(s, v, DecisionOf(plan.phase))
  }

  ghost predicate IntentOk(s: State, task: Task, i: Intent) {
    match i
    case Stay => true
    case Become(next) => TaskOk(s, next) && !next.Recorded?
    case Store(v, w, next) => StoreOk(s, v, w, next)
    case StorePlan(p, plan, next) =>
      p < |s.plans| && !next.Recorded? && (p + 1 == |s.plans| ==> TaskOk(s.(plans := s.plans + [plan]), next))
      && (plan.phase == s.plans[p].phase || PlanBacked(s, plan))
    case Make(action, next) =>
      action.status == EMPTY_STATUS && !next.Recorded? && Named(s, action.spec.approvedBy)
      && (s.actions == [] ==> TaskOk(s.(actions := [action]), next))
    case Erase => true
    case Call(w, next) => task == Recorded(w) && TaskOk(s, next) && !next.Recorded?
    case Patch(patch, lands, next) =>
      s.deployments != [] && patch.executionID != NoIdentity && !next.Recorded?
      && (!patch.setsRestartedBy ==> Marked(s))
      && TaskOk(if lands then PatchLanded(s, patch) else s, next)
  }

  lemma DispatchIntentOk(s: State, v: nat, m: Move)
    requires v < |s.actions| && Route(s.actions[v]) == Dispatch
    ensures IntentOk(s, Observed(v), ActionIntent(s, v, s.actions[v], m))
  {
    hide Legal, CapturedBaseline, SpecDigest, DispatchRequest, TaskOk, PlanBacked, FromPlan, OfTheTarget;
    assert s.actions[v].status.approval.Some?;
    if m.RecordExecution? {
      CapturedIsOfTheTarget(s, s.actions[v], m.seen, m.capturedAt, m.health);
    }
  }

  lemma ResolveIntentOk(s: State, v: nat, m: Move)
    requires v < |s.actions| && Route(s.actions[v]) == ResolveOnly
    ensures IntentOk(s, Observed(v), ActionIntent(s, v, s.actions[v], m))
  {
    hide Legal, Route, PersistedRequest, ResolveOn, TrueSuccess, PlanBacked, FromPlan, DeadlinePassed;
    if m.ResolveExecution? && m.seen < |s.deployments| {
      ResolvedIsTrue(s, PersistedRequest(s.actions[v]), m.seen);
    }
  }

  /** What Resolve finds, the template it read carried. */
  lemma ResolvedIsTrue(s: State, r: Request, seen: nat)
    requires seen < |s.deployments|
    ensures var found := ResolveOn(Some(s.deployments[seen]), r);
            found.Some? ==> TrueSuccess(s, found.value)
  {
    var d := s.deployments[seen];
    assert s.deployments[seen].executionID == d.executionID;
  }

  lemma OtherIntentOk(s: State, v: nat, m: Move)
    requires v < |s.actions| && Route(s.actions[v]) != Dispatch && Route(s.actions[v]) != ResolveOnly
    ensures IntentOk(s, Observed(v), ActionIntent(s, v, s.actions[v], m))
  {
    hide Legal, Route, NeedsFreshPending, DeadlinePassed, TTLExpired, PlanBacked, FromPlan, TrueSuccess;
  }

  lemma ActionIntentOk(s: State, v: nat, m: Move)
    requires v < |s.actions|
    ensures IntentOk(s, Observed(v), ActionIntent(s, v, s.actions[v], m))
  {
    hide Route, ActionIntent, IntentOk;
    if Route(s.actions[v]) == Dispatch {
      DispatchIntentOk(s, v, m);
    } else if Route(s.actions[v]) == ResolveOnly {
      ResolveIntentOk(s, v, m);
    } else {
      OtherIntentOk(s, v, m);
    }
  }

  lemma PlanObservedOk(s: State, task: Task, m: Move)
    requires task.PlanObserved? && TaskOk(s, task)
    ensures IntentOk(s, task, PlanIntent(s, task, m))
  {
    hide DeadlinePassed, MayEvaluate;
  }

  lemma PlanEvaluatedOk(s: State, task: Task, m: Move)
    requires task.PlanEvaluated? && TaskOk(s, task)
    ensures IntentOk(s, task, PlanIntent(s, task, m))
  {
    hide DeadlinePassed, Records, MayEvaluate, DecisionStatus;
    var i := PlanIntent(s, task, m);
    if m.SaveAction? {
      AppliedApproverIsNamed(
        s, task.p, task.evaluation,
        if m.existing.Some? && m.existing.value < |s.actions| then s.actions[m.existing.value].spec else NO_SPEC);
    }
    if i.Make? {
      assert FromPlan(s.(actions := [i.action]), task.p, task.evaluation, 0);
    }
  }

  lemma PlanSavedOk(s: State, task: Task, m: Move)
    requires task.PlanSaved? && TaskOk(s, task)
    ensures IntentOk(s, task, PlanIntent(s, task, m))
  {
    hide DeadlinePassed, MayEvaluate;
    assert FromPlan(s, task.p, task.evaluation, task.v);
  }

  lemma PlanDecidedOk(s: State, task: Task, m: Move)
    requires task.PlanDecided? && TaskOk(s, task)
    ensures IntentOk(s, task, PlanIntent(s, task, m))
  {
    assert RecordsDecision(s, task.v, task.evaluation.decision);
    if Decisive(PlanPhase(task.evaluation.decision)) {
      assert RecordsDecision(s, task.v, DecisionOf(PlanPhase(task.evaluation.decision)));
    }
  }

  /** An Execute that finds its identity found it on a stored Deployment; one that patches puts its own identity. */
  lemma ExecuteNamesItsIdentity(seen: Option<Deployment>, r: Request)
    ensures ExecuteOn(seen, r).AlreadyRecorded? ==>
              r.executionID != NoIdentity && seen.Some? && seen.value.executionID == r.executionID
    ensures ExecuteOn(seen, r).MustPatch? ==>
              r.executionID != NoIdentity && ExecuteOn(seen, r).patch.executionID == r.executionID
              && seen.Some? && ValidRestart(r) && seen.value.uid == r.targetUID
              && (!ExecuteOn(seen, r).patch.setsRestartedBy ==> seen.value.restartedBy == RestartedByFluxSeer)
  {
  }

  lemma RecordedOk(s: State, w: nat, m: Move)
    requires TaskOk(s, Recorded(w))
    ensures IntentOk(s, Recorded(w), BackendIntent(s, Recorded(w), DispatchRequest(s.actions[w]), m))
  {
    hide DeadlinePassed, Records, MayEvaluate, SpecDigest, Identity, DispatchRequest, ExecuteOn, ValidRestart;
    var r := DispatchRequest(s.actions[w]);
    if m.CallExecute? && BackendFor(r.actionType) == KubernetesBackend {
      var seen := SeenDeployment(s, m.target);
      ExecuteNamesItsIdentity(seen, r);
      var step := ExecuteOn(seen, r);
      if step.AlreadyRecorded? {
        assert s.deployments[m.target.value].executionID == r.executionID;
        assert Carried(s, r.executionID);
        CallOk(s, w, Answered(w, SucceededResult(r, m.now), None));
      } else if step.MustPatch? {
        assert s.deployments[m.target.value] == seen.value;
        assert !step.patch.setsRestartedBy ==> Marked(s);
        assert TargetSeen(s, r);
        CallOk(s, w, Patching(w, step.patch));
      } else {
        CallOk(s, w, Answered(w, FailedResult(r, step.reason, OutcomeFailed, m.now), Some(step.reason)));
      }
    }
  }

  lemma CallOk(s: State, w: nat, next: Task)
    requires TaskOk(s, next) && !next.Recorded?
    ensures IntentOk(s, Recorded(w), Call(w, next))
  {
  }

  lemma AnswerIsTrue(r: Request, fault: PatchFault, now: Time)
    ensures PatchAnswer(r, fault, now).1.None? ==>
              Lands(fault) && PatchAnswer(r, fault, now).0.executionID == r.executionID
  {
  }

  lemma PatchingOk(s: State, w: nat, patch: MergePatch, m: Move)
    requires TaskOk(s, Patching(w, patch)) && s.deployments != []
    ensures IntentOk(s, Patching(w, patch), BackendIntent(s, Patching(w, patch), DispatchRequest(s.actions[w]), m))
  {
    if m.SendPatch? {
      var r := DispatchRequest(s.actions[w]);
      var (result, error) := PatchAnswer(r, m.fault, m.now);
      AnswerIsTrue(r, m.fault, m.now);
      PatchOk(s, w, patch, Lands(m.fault), result, error);
    }
  }

  lemma PatchOk(s: State, w: nat, patch: MergePatch, lands: bool, result: Result, error: Option<FailureReason>)
    requires s.deployments != [] && IsDispatch(s, w) && patch.executionID != NoIdentity
    requires error.None? ==> lands && result.executionID == patch.executionID
    requires !patch.setsRestartedBy ==> Marked(s)
    ensures IntentOk(s, Patching(w, patch), Patch(patch, lands, Answered(w, result, error)))
  {
    var r := PatchLanded(s, patch);
    assert r.deployments[|s.deployments|].executionID == patch.executionID;
    assert Carried(r, patch.executionID);
  }

  lemma AnsweredOk(s: State, task: Task, m: Move)
    requires (task.Answered? || task.Reloaded?) && TaskOk(s, task)
    ensures IntentOk(s, task, BackendIntent(s, task, DispatchRequest(s.actions[task.w]), m))
  {
    hide DeadlinePassed, Records, MayEvaluate, SpecDigest, Identity, DispatchRequest, ExecuteOn, PatchAnswer;
  }

  lemma NotifiedOk(s: State, v: nat, now: Time, m: Move)
    requires TaskOk(s, Notified(v, now))
    ensures IntentOk(s, Notified(v, now), NotifiedIntent(v, now, m))
  {
    hide DeadlinePassed, Records, MayEvaluate, SpecDigest;
  }

  lemma StayOk(s: State, task: Task)
    ensures IntentOk(s, task, Stay)
  {
  }

  lemma RequestIntentOk(s: State, task: Task, m: Move)
    requires (task.Recorded? || task.Patching? || task.Answered? || task.Reloaded?) && TaskOk(s, task)
    requires s.deployments != []
    ensures IntentOk(s, task, RequestIntent(s, task, task.w, m))
  {
    hide BackendIntent, IntentOk, TaskOk, DispatchRequest;
    StayOk(s, task);
    if task.w < |s.actions| && s.actions[task.w].status.approval.Some? {
      match task
      case Recorded(w) => RecordedOk(s, w, m);
      case Patching(w, patch) => PatchingOk(s, w, patch, m);
      case _ => AnsweredOk(s, task, m);
    }
  }

  lemma PlanIntentOk(s: State, task: Task, m: Move)
    requires (task.PlanObserved? || task.PlanEvaluated? || task.PlanSaved? || task.PlanDecided?) && TaskOk(s, task)
    ensures IntentOk(s, task, PlanIntent(s, task, m))
  {
    hide PlanIntent, IntentOk, TaskOk;
    match task
    case PlanObserved(_) => PlanObservedOk(s, task, m);
    case PlanEvaluated(_, _) => PlanEvaluatedOk(s, task, m);
    case PlanSaved(_, _, _) => PlanSavedOk(s, task, m);
    case PlanDecided(_, _, _) => PlanDecidedOk(s, task, m);
  }

  /** Whatever a pass asks for fits the point that it has reached. */
  lemma EveryIntentOk(s: State, task: Task, m: Move)
    requires TaskOk(s, task) && s.deployments != []
    ensures IntentOk(s, task, IntentOf(s, task, m))
  {
    hide RequestIntent, ActionIntent, PlanIntent, NotifiedIntent, IntentOk, TaskOk;
    StayOk(s, task);
    if task.Recorded? || task.Patching? || task.Answered? || task.Reloaded? {
      RequestIntentOk(s, task, m);
    } else if task.Observed? {
      if task.v < |s.actions| {
        ActionIntentOk(s, task.v, m);
      }
    } else if task.Notified? {
      NotifiedOk(s, task.v, task.now, m);
    } else if !task.Idle? {
      PlanIntentOk(s, task, m);
    }
  }

  // ------------------------------------------------- writes that are never refused

  lemma ActionStoreIsLegal(s: State, v: nat, m: Move)
    requires v < |s.actions|
    ensures var i := ActionIntent(s, v, s.actions[v], m);
            i.Store? ==> i.v == v && Legal(s.actions[v], i.write)
  {
  }

  lemma NotifiedStoreIsLegal(s: State, v: nat, now: Time, m: Move)
    requires Announced(s, v, now)
    ensures var i := NotifiedIntent(v, now, m);
            i.Store? ==> i.v == v && Legal(s.actions[v], i.write)
  {
  }

  lemma BackendStoreIsLegal(s: State, task: Task, r: Request, m: Move)
    requires r.executionID != NoIdentity && (task.Reloaded? ==> task.v < |s.actions|)
    ensures var i := BackendIntent(s, task, r, m);
            i.Store? ==> i.v < |s.actions| && Legal(s.actions[i.v], i.write)
  {
    hide ExecuteOn, PatchAnswer, DeadlinePassed, Route, AwaitsVerification, NeedsFreshPending;
  }

  lemma BackendStoresAreLegal(s: State, task: Task, m: Move)
    requires (task.Recorded? || task.Patching? || task.Answered? || task.Reloaded?) && TaskOk(s, task)
    ensures var i := IntentOf(s, task, m);
            i.Store? ==> i.v < |s.actions| && Legal(s.actions[i.v], i.write)
  {
    hide BackendIntent, Legal, Records, MayEvaluate, SpecDigest, DeadlinePassed;
    assert DispatchRequest(s.actions[task.w]).executionID == Identity(s.actions[task.w]);
    BackendStoreIsLegal(s, task, DispatchRequest(s.actions[task.w]), m);
  }

  lemma PlanStoreIsLegal(s: State, task: Task, m: Move)
    ensures var i := PlanIntent(s, task, m);
            i.Store? ==> i.v < |s.actions| && Legal(s.actions[i.v], i.write)
  {
  }

  /** No write is held back for its content: only a newer version or a deletion can refuse it. */
  lemma EveryStoreIsLegal(s: State, task: Task, m: Move)
    requires TaskOk(s, task)
    ensures var i := IntentOf(s, task, m);
            i.Store? ==> i.v < |s.actions| && Legal(s.actions[i.v], i.write)
  {
    hide BackendIntent, ActionIntent, PlanIntent, NotifiedIntent, Legal, Records, MayEvaluate, SpecDigest;
    match task
    case Observed(v) => ActionStoreIsLegal(s, v, m);
    case Notified(v, now) => NotifiedStoreIsLegal(s, v, now, m);
    case Recorded(_) => BackendStoresAreLegal(s, task, m);
    case Patching(_, _) => BackendStoresAreLegal(s, task, m);
    case Answered(_, _, _) => BackendStoresAreLegal(s, task, m);
    case Reloaded(_, _, _, _) => BackendStoresAreLegal(s, task, m);
    case Idle =>
    case _ => PlanStoreIsLegal(s, task, m);
  }

  /** The writes that are skipped when they would not change the status always change it. */
  lemma GuardedWritesChangeTheStatus(a: AgentAction, w: Write)
    requires Legal(a, w) && (w.DispatchRecord? || w.PendingRecord? || w.Escalation?)
    ensures NewStatus(a, w) != a.status
  {
    if w.PendingRecord? {
      assert PendingStatus(a, w.now).approval.value.actionDigest == SpecDigest(a.spec);
    } else if w.Escalation? {
      assert EscalatedStatus(a, w.now).phase == Escalated;
    } else {
      assert HasExecutionId(DispatchStatus(a, w.baseline, w.now));
    }
  }
}
