/**
  Runs in which a pass acts on something that has been overtaken: an approver that an earlier automatic decision left
  behind, and a Deployment that was replaced after it was read.
 */
module StaleRuns {
  import opened Wrappers
  import opened AgentActions
  import opened ActionHistory
  import opened Executor
  import opened ApprovalProtocol
  import opened ApprovalInvariant
  import opened HistoryTheorems
  import opened RedecisionRuns
  import opened DeletionTheorems
  import Guardrails
  import Text

  // ----------------------------------------------------------------- an approver left

  function Severe(plan: Plan, severity: Guardrails.Severity): Plan {
    plan.(spec := plan.spec.(severity := severity))
  }

  function LegacyDecision(s: State, plan: Plan): Guardrails.Evaluation {
    Guardrails.Evaluate(s.policy, plan.spec.target.namespace, plan.spec.actionType, plan.spec.severity)
  }

  /** The plan is approved automatically, and needs a human once it is of this severity. */
  predicate Worsens(s: State, e: Guardrails.Evaluation, severity: Guardrails.Severity) {
    Runnable(s, e) && LegacyDecision(s, Severe(s.plans[0], severity)).decision == Guardrails.Manual
  }

  lemma PlanIsEdited(s: State, severity: Guardrails.Severity)
    requires |s.plans| == 1
    ensures var plan := Severe(s.plans[0], severity);
            Step(s, FromOutside(UserEditsPlan(plan.spec, plan.targetUIDAnnotation))) == s.(plans := s.plans + [plan])
  {
  }

  lemma EditedPlanIsRead(s: State)
    requires |s.plans| == 2 && s.plans[1].phase == NoPhase
    ensures Step(s, FromOutside(ReadPlan(1))) == s.(tasks := s.tasks + [PlanObserved(1)])
  {
  }

  lemma EditedPlanIsEvaluated(s: State, ts: seq<Task>, e: Guardrails.Evaluation)
    requires |s.plans| == 2 && MayEvaluate(s.policy, s.plans[1], e) && s.tasks == ts + [PlanObserved(1)]
    ensures Step(s, OfPass(|ts|, EvaluatePlan(e))) == s.(tasks := ts + [PlanEvaluated(1, e)])
  {
    hide MayEvaluate, ActionIntent, BackendIntent, OutsideStep, Legal, After;
    assert IntentOf(s, s.tasks[|ts|], EvaluatePlan(e)) == Become(PlanEvaluated(1, e));
    assert s.tasks[|ts| := PlanEvaluated(1, e)] == ts + [PlanEvaluated(1, e)];
  }

  /** The action is saved with the spec of the edited plan; its approver stays. */
  lemma EditedPlanIsSaved(s: State, ts: seq<Task>, e: Guardrails.Evaluation)
    requires |s.plans| == 2 && |s.actions| == 1 && !s.deleted && s.tasks == ts + [PlanEvaluated(1, e)]
    ensures var a := s.actions[0];
            var w := PlanSave(AppliedSpec(s.plans[1], e, a.spec), AppliedUID(s.plans[1], a.targetUIDAnnotation));
            Step(s, OfPass(|ts|, SaveAction(Some(0), true))) == Landed(s.(tasks := ts + [PlanSaved(1, e, 1)]), 0, w)
  {
    hide ActionIntent, BackendIntent, OutsideStep, AppliedSpec, AppliedUID, After;
    var a := s.actions[0];
    var w := PlanSave(AppliedSpec(s.plans[1], e, a.spec), AppliedUID(s.plans[1], a.targetUIDAnnotation));
    assert IntentOf(s, s.tasks[|ts|], SaveAction(Some(0), true)) == Store(0, w, PlanSaved(1, e, 1));
    assert s.tasks[|ts| := PlanSaved(1, e, 1)] == ts + [PlanSaved(1, e, 1)];
  }

  lemma ManualIsWritten(s: State, ts: seq<Task>, e: Guardrails.Evaluation)
    requires |s.plans| == 2 && |s.actions| == 2 && !s.deleted && s.tasks == ts + [PlanSaved(1, e, 1)]
    requires e.decision == Guardrails.Manual && s.actions[1].status.phase != WaitingApproval
    ensures Step(s, OfPass(|ts|, RecordDecision(0)))
         == Landed(s.(tasks := ts + [PlanDecided(1, e, 2)]), 1, PlanDecision(e, 0))
  {
    hide ActionIntent, BackendIntent, OutsideStep, Stored;
    assert DecisionStatus(s.actions[1], e, 0).phase == WaitingApproval;
    assert IntentOf(s, s.tasks[|ts|], RecordDecision(0)) == Store(1, PlanDecision(e, 0), PlanDecided(1, e, 2));
    assert s.tasks[|ts| := PlanDecided(1, e, 2)] == ts + [PlanDecided(1, e, 2)];
  }

  /** After the automatic decision was saved but not recorded, the plan is edited and saved again. */
  lemma ApproverIsLeft(s: State, e: Guardrails.Evaluation, severity: Guardrails.Severity) returns (es: seq<Event>)
    requires Initial(s) && Worsens(s, e, severity)
    ensures var plan, r := Severe(s.plans[0], severity), Run(s, es);
            var f := LegacyDecision(s, plan);
            r == s.(plans := r.plans, tasks := r.tasks, actions := r.actions, writes := r.writes)
            && r.plans == s.plans + [plan] && |r.actions| == 2 && |r.writes| == 1 && r.writes[0].PlanSave?
            && r.tasks == [PlanSaved(0, e, 0), PlanSaved(1, f, 1)] && r.actions[1].status == EMPTY_STATUS
            && r.actions[1].spec == AppliedSpec(plan, f, FirstSpec(s, e))
            && r.actions[1].targetUIDAnnotation == AppliedUID(s.plans[0], "")
  {
    hide Initial, Step, Run, Runnable, Guardrails.Evaluate, FirstSpec, AppliedSpec;
    StartsPlain(s, e);
    var plan := Severe(s.plans[0], severity);
    var f := LegacyDecision(s, plan);
    PassSaves(s, e);
    es := RecordingEvents(s, e)[..3];
    var s0 := Saved(s, e);
    PlanIsEdited(s0, severity);
    Then(s, es, FromOutside(UserEditsPlan(plan.spec, plan.targetUIDAnnotation)));
    es := es + [FromOutside(UserEditsPlan(plan.spec, plan.targetUIDAnnotation))];
    var s1 := s0.(plans := s0.plans + [plan]);
    EditedPlanIsRead(s1);
    Then(s, es, FromOutside(ReadPlan(1)));
    es := es + [FromOutside(ReadPlan(1))];
    var ts := [PlanSaved(0, e, 0)];
    assert s1.tasks == ts;
    var s2 := s1.(tasks := ts + [PlanObserved(1)]);
    EditedPlanIsEvaluated(s2, ts, f);
    Then(s, es, OfPass(1, EvaluatePlan(f)));
    es := es + [OfPass(1, EvaluatePlan(f))];
    var s3 := s2.(tasks := ts + [PlanEvaluated(1, f)]);
    EditedPlanIsSaved(s3, ts, f);
    Then(s, es, OfPass(1, SaveAction(Some(0), true)));
    es := es + [OfPass(1, SaveAction(Some(0), true))];
  }

  lemma StartsPlain(s: State, e: Guardrails.Evaluation)
    requires Initial(s) && Runnable(s, e)
    ensures Open(s, e) && |s.plans| == 1 && s.plans[0].phase == NoPhase && s.tasks == [] && s.actions == []
    ensures !s.deleted && s.writes == [] && s.calls == [] && s.named == {}
    ensures FirstSpec(s, e).approvedBy == Guardrails.AUTO_APPROVER && |s.deployments| == 1
  {
  }

  /** The decision for the edited plan needs a human, yet the approver that is there counts as one. */
  lemma LeftApproverSigns(s: State, e: Guardrails.Evaluation, f: Guardrails.Evaluation, plan: Plan, a: AgentAction)
    requires Runnable(s, e) && f.decision == Guardrails.Manual && f.policy.None? && plan.spec.target == s.plans[0].spec.target
    requires plan.spec.actionType == s.plans[0].spec.actionType && FirstSpec(s, e).approvedBy != ""
    requires a.status == EMPTY_STATUS && a.targetUIDAnnotation == AppliedUID(s.plans[0], "")
    requires a.spec == AppliedSpec(plan, f, FirstSpec(s, e))
    ensures var b := After(a, PlanDecision(f, 0));
            Route(b) == Dispatch && b.status.approval.Some?
            && CapturedBaseline(s, DispatchRequest(b), 0, 0, SOME_HEALTH) == Some(CapturedFor(s, b))
  {
    hide Stored, Runnable, CapturedFor, CapturedBaseline, Identity;
    ManualDecisionDispatchesExactlyWhen(a, f, 0);
    StoredDecision(a, f, 0);
    TargetIsCaptured(s, e, After(a, PlanDecision(f, 0)));
  }

  /**
    From every initial state whose plan is approved automatically, and is above the limit once its severity is edited,
    a run reaches the backend by a manual decision although no user has named an approver.
   */
  lemma LeftApproverCanSign(s: State, e: Guardrails.Evaluation, severity: Guardrails.Severity) returns (es: seq<Event>)
    requires Initial(s) && Worsens(s, e, severity)
    ensures var r := Run(s, es);
            r.calls == [2] && r.named == {} && |r.writes| == 3 && r.plans != [] && r.writes[2].DispatchRecord?
            && r.writes[1].PlanDecision? && r.writes[1].evaluation.decision == Guardrails.Manual
            && !r.writes[0].PlanDecision? && r.plans[|r.plans| - 1].spec.severity == severity
  {
    hide Initial, Step, Run, Runnable, Guardrails.Evaluate, FirstSpec, AppliedSpec, After, Route, CapturedBaseline,
         CapturedFor, DispatchRequest;
    StartsPlain(s, e);
    var plan := Severe(s.plans[0], severity);
    var f := LegacyDecision(s, plan);
    ManualIsLegacy(s, plan);
    es := ApproverIsLeft(s, e, severity);
    var s0, ts := Run(s, es), [PlanSaved(0, e, 0)];
    assert s0.tasks == ts + [PlanSaved(1, f, 1)];
    ManualIsWritten(s0, ts, f);
    Then(s, es, OfPass(1, RecordDecision(0)));
    es := es + [OfPass(1, RecordDecision(0))];
    var s1 := Landed(s0.(tasks := ts + [PlanDecided(1, f, 2)]), 1, PlanDecision(f, 0));
    LeftApproverSigns(s, e, f, plan, s0.actions[1]);
    var b := s1.actions[2];
    ActionIsRead(s1, 2);
    Then(s, es, FromOutside(ReadAction(2)));
    es := es + [FromOutside(ReadAction(2))];
    var us := s1.tasks;
    var s2 := s1.(tasks := us + [Observed(2)]);
    CapturedTheSame(s, s2, b);
    DispatchIsWritten(s2, us, 2, CapturedFor(s, b));
    Then(s, es, OfPass(2, RecordExecution(0, 0, SOME_HEALTH, 0)));
    es := es + [OfPass(2, RecordExecution(0, 0, SOME_HEALTH, 0))];
    var s3 := Landed(s2.(tasks := us + [Recorded(2)]), 2, DispatchRecord(CapturedFor(s, b), 0));
    BackendIsCalled(s3, us, 2);
    Then(s, es, OfPass(2, CallExecute(Some(0), SOME_RESULT, None, 0)));
    es := es + [OfPass(2, CallExecute(Some(0), SOME_RESULT, None, 0))];
  }

  lemma ManualIsLegacy(s: State, plan: Plan)
    ensures LegacyDecision(s, plan).policy.None?
  {
  }

  lemma CapturedTheSame(s: State, r: State, a: AgentAction)
    requires a.status.approval.Some? && r.deployments == s.deployments
    ensures CapturedBaseline(r, DispatchRequest(a), 0, 0, SOME_HEALTH)
         == CapturedBaseline(s, DispatchRequest(a), 0, 0, SOME_HEALTH)
  {
    hide DispatchRequest;
  }

  // ----------------------------------------------------------------- a target replaced

  lemma TargetIsReplaced(s: State, replacement: Deployment)
    requires s.deployments != []
    ensures var r := Step(s, FromOutside(ClusterEdits(replacement)));
            r == s.(deployments := s.deployments + [replacement], foreign := r.foreign)
  {
  }

  lemma PatchLandsOnWhatIsLive(s: State, ts: seq<Task>, w: nat, patch: MergePatch)
    requires w < |s.actions| && s.tasks == ts + [Patching(w, patch)] && s.actions[w].status.approval.Some?
    requires s.deployments != []
    ensures var r := Step(s, OfPass(|ts|, SendPatch(Applied, 0)));
            r.actions == s.actions && r.deployments == s.deployments + [Patched(Live(s), patch)]
  {
    hide PlanIntent, ActionIntent, OutsideStep, DispatchRequest, ExecuteOn;
    var next := Answered(w, SucceededResult(DispatchRequest(s.actions[w]), 0), None);
    assert IntentOf(s, Patching(w, patch), SendPatch(Applied, 0)) == Patch(patch, true, next);
  }

  /**
    Since a merge patch carries neither UID nor version, from every initial state with an automatically approved restart,
    and for every replacement of its target, a run in which the replacement is restarted under the action's identity.
   */
  lemma ReplacementCanBeRestarted(s: State, e: Guardrails.Evaluation, replacement: Deployment) returns (es: seq<Event>)
    requires Initial(s) && Restartable(s, e)
    ensures var r := Run(s, es);
            |r.actions| == 3 && |r.deployments| == 3 && r.deployments[1] == replacement
            && r.deployments[2].uid == replacement.uid && r.deployments[2].executionID == Identity(r.actions[1])
            && TargetUID(r.actions[1]) == s.deployments[0].uid
  {
    hide Initial, Step, Run, Runnable, RecordingEvents, Turned, Again, FirstSpec, After, BackendFor, HasBaseline,
         ValidRestart, SpecDigest, TargetUID, Identity;
    HasPlan(s, e);
    Starts(s, e);
    StartsPlain(s, e);
    ActionIsRecorded(s, e);
    SavedIsOpen(s, e);
    var saved := Saved(s, e);
    StillRestartable(s, saved, e);
    TurnedAction(saved, e, 0);
    var ts := [PlanDecided(0, e, 1)];
    var s1 := Turned(saved, e, 0).(tasks := ts + [Recorded(1)]);
    es := RecordingEvents(s, e);
    assert RecordedTasks([], e, 0) == ts + [Recorded(1)];
    RequestIsValid(saved, e, s1.actions[1]);
    var patch := PatchIsDue(s1, ts, 1);
    Then(s, es, OfPass(1, CallExecute(Some(0), SOME_RESULT, None, 0)));
    es := es + [OfPass(1, CallExecute(Some(0), SOME_RESULT, None, 0))];
    var s2 := s1.(tasks := ts + [Patching(1, patch)], calls := s1.calls + [1]);
    TargetIsReplaced(s2, replacement);
    Then(s, es, FromOutside(ClusterEdits(replacement)));
    es := es + [FromOutside(ClusterEdits(replacement))];
    var s3 := Step(s2, FromOutside(ClusterEdits(replacement)));
    PatchLandsOnWhatIsLive(s3, ts, 1, patch);
    Then(s, es, OfPass(1, SendPatch(Applied, 0)));
    es := es + [OfPass(1, SendPatch(Applied, 0))];
  }
}
