/**
  Runs in which the plan is decided again and again: its pass reads an old version of the plan, or its last status
  write was lost, and so it puts the action back to Approved. Each time the action is dispatched once more, with the
  same identity. These runs reach the bound of ApprovalTheorems.ExecuteCallsAreBounded for every number of decisions.
 */
module RedecisionRuns {
  import opened Wrappers
  import opened AgentActions
  import opened ActionHistory
  import opened Executor
  import opened ApprovalProtocol
  import opened HistoryTheorems
  import opened ApprovalTheorems
  import Guardrails
  import Text

  const SOME_HEALTH := Health(1, 1, 1, 1, 1, 1, [])
  const SOME_RESULT := Result(NoIdentity, OutcomeUnknown, NoReason, NoExecutor, ZERO_TIME)

  function FirstSpec(s: State, e: Guardrails.Evaluation): Spec
    requires s.plans != []
  {
    AppliedSpec(s.plans[0], e, NO_SPEC)
  }

  /** The plan is approved automatically, and its target can be dispatched to. */
  predicate Runnable(s: State, e: Guardrails.Evaluation) {
    s.plans != [] && s.deployments != [] && s.plans[0].phase == NoPhase
    && MayEvaluate(s.policy, s.plans[0], e) && e.decision == Guardrails.Auto
    && var spec := FirstSpec(s, e);
       match BackendFor(spec.actionType)
       case KubernetesBackend =>
         spec.actionType == RolloutRestart && spec.target.kind == DeploymentKind
         && !spec.target.apiVersion.OtherApiVersion? && spec.target.namespace != "" && spec.target.name != ""
         && s.deployments[0].uid != "" && s.deployments[0].uid == Text.TrimSpace(AppliedUID(s.plans[0], ""))
       case NoBackend => false
       case _ => true
  }

  /** The state after n rounds. */
  predicate Round(s: State, e: Guardrails.Evaluation, n: nat) {
    Runnable(s, e) && !s.deleted && |s.tasks| == 2 * n && |s.calls| == n && |s.writes| == 2 * n
    && |s.actions| == (if n == 0 then 0 else 2 * n + 1)
    && Dispatches(s.writes, |s.writes|) == n && RedecisionsOf(s) == (if n == 0 then 0 else n - 1)
    && (n > 0 ==> Again(s, e, s.actions[2 * n]))
  }

  /** An action as the plan last saved it, open to another decision. */
  predicate Again(s: State, e: Guardrails.Evaluation, a: AgentAction)
    requires s.plans != []
  {
    a.spec == FirstSpec(s, e) && a.targetUIDAnnotation == AppliedUID(s.plans[0], "")
    && a.status.phase != Approved && Unverified(a.status)
  }

  predicate Unverified(status: Status) {
    status.effectiveness.Some? ==> status.effectiveness.value.phase == NotVerified
  }

  // ---------------------------------------------------------------- one event at a time

  lemma {:induction false} RunJoins(s: State, es: seq<Event>, fs: seq<Event>)
    ensures Run(s, es + fs) == Run(Run(s, es), fs)
  {
    hide Step;
    if fs == [] {
      assert es + fs == es;
    } else {
      var joined, last := es + fs, |fs| - 1;
      RunJoins(s, es, fs[..last]);
      assert joined[..|joined| - 1] == es + fs[..last];
      assert joined[|joined| - 1] == fs[last];
    }
  }

  function Saved(s: State, e: Guardrails.Evaluation): State
    requires s.plans != []
  {
    var actions :=
      if s.actions != [] then s.actions
      else [AgentAction(s.uid, 1, AppliedUID(s.plans[0], ""), false, FirstSpec(s, e), EMPTY_STATUS)];
    s.(actions := actions, tasks := s.tasks + [PlanSaved(0, e, |actions| - 1)])
  }

  lemma PlanIsRead(s: State)
    requires s.plans != [] && s.plans[0].phase == NoPhase
    ensures Step(s, FromOutside(ReadPlan(0))) == s.(tasks := s.tasks + [PlanObserved(0)])
  {
  }

  lemma PlanIsEvaluated(s: State, ts: seq<Task>, e: Guardrails.Evaluation)
    requires s.plans != [] && MayEvaluate(s.policy, s.plans[0], e) && s.tasks == ts + [PlanObserved(0)]
    ensures Step(s, OfPass(|ts|, EvaluatePlan(e))) == s.(tasks := ts + [PlanEvaluated(0, e)])
  {
    hide MayEvaluate, ActionIntent, BackendIntent, OutsideStep, Legal, After;
    var intent := IntentOf(s, s.tasks[|ts|], EvaluatePlan(e));
    assert intent == Become(PlanEvaluated(0, e));
    assert s.tasks[|ts| := PlanEvaluated(0, e)] == ts + [PlanEvaluated(0, e)];
  }

  lemma ActionIsFound(s: State, ts: seq<Task>, e: Guardrails.Evaluation)
    requires Runnable(s, e) && s.tasks == ts + [PlanEvaluated(0, e)]
    requires s.actions != [] ==> Again(s, e, s.actions[|s.actions| - 1])
    ensures var existing := if s.actions == [] then None else Some(|s.actions| - 1);
            Step(s, OfPass(|ts|, SaveAction(existing, false))) == Saved(s.(tasks := ts), e)
  {
    hide MayEvaluate, ActionIntent, BackendIntent, OutsideStep, Legal, After, BackendFor, Text.TrimSpace;
    var existing := if s.actions == [] then None else Some(|s.actions| - 1);
    var intent := IntentOf(s, s.tasks[|ts|], SaveAction(existing, false));
    var saved := PlanSaved(0, e, |Saved(s, e).actions| - 1);
    assert e.decision == Guardrails.Auto;
    assert intent == SaveIntent(s, 0, e, existing, false);
    assert s.tasks[|ts| := saved] == ts + [saved];
    assert Accepted(s, intent) && NextTask(s.tasks[|ts|], intent) == saved;
  }

  lemma DecisionIsWritten(s: State, ts: seq<Task>, e: Guardrails.Evaluation, v: nat)
    requires s.plans != [] && !s.deleted && v + 1 == |s.actions| && s.tasks == ts + [PlanSaved(0, e, v)]
    requires e.decision == Guardrails.Auto && s.actions[v].status.phase != Approved
    ensures Step(s, OfPass(|ts|, RecordDecision(0))) == Landed(s.(tasks := ts + [PlanDecided(0, e, v + 1)]), v, PlanDecision(e, 0))
  {
    hide ActionIntent, BackendIntent, OutsideStep, Stored;
    var task, next, w := PlanSaved(0, e, v), PlanDecided(0, e, v + 1), PlanDecision(e, 0);
    assert DecisionStatus(s.actions[v], e, 0).phase == Approved;
    assert IntentOf(s, task, RecordDecision(0)) == Store(v, w, next);
    assert s.tasks[|ts| := next] == ts + [next];
  }

  lemma ActionIsRead(s: State, v: nat)
    requires v < |s.actions|
    ensures Step(s, FromOutside(ReadAction(v))) == s.(tasks := s.tasks + [Observed(v)])
  {
  }

  lemma DispatchIsWritten(s: State, ts: seq<Task>, v: nat, baseline: Option<Baseline>)
    requires !s.deleted && v + 1 == |s.actions| && s.tasks == ts + [Observed(v)] && Route(s.actions[v]) == Dispatch
    requires CapturedBaseline(s, DispatchRequest(s.actions[v]), 0, 0, SOME_HEALTH) == Some(baseline)
    ensures Step(s, OfPass(|ts|, RecordExecution(0, 0, SOME_HEALTH, 0)))
            == Landed(s.(tasks := ts + [Recorded(v)]), v, DispatchRecord(baseline, 0))
  {
    hide BackendIntent, PlanIntent, OutsideStep, After, CapturedBaseline, Route, DispatchRequest;
    var next, w := Recorded(v), DispatchRecord(baseline, 0);
    assert IntentOf(s, Observed(v), RecordExecution(0, 0, SOME_HEALTH, 0)) == Store(v, w, next);
    assert s.tasks[|ts| := next] == ts + [next];
  }

  lemma BackendIsCalled(s: State, ts: seq<Task>, w: nat)
    requires w < |s.actions| && s.tasks == ts + [Recorded(w)] && s.actions[w].status.approval.Some?
    ensures var r := Step(s, OfPass(|ts|, CallExecute(Some(0), SOME_RESULT, None, 0)));
            |r.tasks| == |s.tasks| && r == s.(tasks := r.tasks, calls := s.calls + [w])
  {
    hide PlanIntent, ActionIntent, OutsideStep, ExecuteOn, BackendFor, DispatchRequest, FailedResult, SucceededResult;
    var intent := IntentOf(s, Recorded(w), CallExecute(Some(0), SOME_RESULT, None, 0));
    assert intent.Call? && intent.w == w;
  }

  // ------------------------------------------------------------------- one round

  function CapturedFor(s: State, a: AgentAction): Option<Baseline>
    requires a.status.approval.Some?
  {
    var captured := CapturedBaseline(s, DispatchRequest(a), 0, 0, SOME_HEALTH);
    if captured.Some? then captured.value else None
  }

  /** Whatever became of it before, an automatic decision makes an action dispatchable unless it is being verified. */
  lemma DecisionReopens(a: AgentAction, e: Guardrails.Evaluation, now: Time)
    requires e.decision == Guardrails.Auto
    ensures var b := After(a, PlanDecision(e, now));
            (Route(b) == Dispatch <==> Route(a) != VerifyEffectiveness)
            && (Unverified(a.status) ==> Route(b) == Dispatch && Unverified(b.status))
            && b == a.(status := b.status) && b.status.approval.Some? && Identity(b) == Identity(a)
  {
  }

  lemma TargetIsCaptured(s: State, e: Guardrails.Evaluation, b: AgentAction)
    requires Runnable(s, e) && b.status.approval.Some?
    requires b.spec.actionType == FirstSpec(s, e).actionType && b.spec.target == FirstSpec(s, e).target
    requires b.targetUIDAnnotation == AppliedUID(s.plans[0], "")
    ensures CapturedBaseline(s, DispatchRequest(b), 0, 0, SOME_HEALTH) == Some(CapturedFor(s, b))
  {
    hide MayEvaluate, Text.TrimSpace, Route, SpecDigest;
  }

  lemma DispatchStaysOpen(s: State, e: Guardrails.Evaluation, b: AgentAction, baseline: Option<Baseline>)
    requires s.plans != [] && Route(b) == Dispatch && b.status.approval.Some? && Unverified(b.status)
    requires b.spec == FirstSpec(s, e) && b.targetUIDAnnotation == AppliedUID(s.plans[0], "")
    ensures Again(s, e, After(b, DispatchRecord(baseline, 0)))
  {
    hide FirstSpec, Route, AppliedUID;
  }

  lemma {:induction false} CountsOfPrefix(ws: seq<Write>, w: Write, n: nat)
    requires n <= |ws|
    ensures Dispatches(ws + [w], n) == Dispatches(ws, n) && Redecisions(ws + [w], n) == Redecisions(ws, n)
  {
    if n > 0 {
      CountsOfPrefix(ws, w, n - 1);
    }
  }

  lemma WriteCounts(ws: seq<Write>, w: Write)
    ensures Dispatches(ws + [w], |ws| + 1) == Dispatches(ws, |ws|) + (if w.DispatchRecord? then 1 else 0)
    ensures Redecisions(ws + [w], |ws| + 1)
         == Redecisions(ws, |ws|) + (if w.PlanDecision? && Dispatches(ws, |ws|) > 0 then 1 else 0)
  {
    CountsOfPrefix(ws, w, |ws|);
  }

  /** The plan's pass can decide the action again, or create it. */
  predicate Open(s: State, e: Guardrails.Evaluation) {
    Runnable(s, e) && !s.deleted && (s.actions != [] ==> Again(s, e, s.actions[|s.actions| - 1]))
  }

  function NextVersion(s: State): nat {
    if s.actions == [] then 0 else |s.actions| - 1
  }

  /** A plan pass up to its decision, and an action pass up to the record of its execution. */
  function RecordingEvents(s: State, e: Guardrails.Evaluation): (es: seq<Event>)
    ensures |es| == 6
  {
    var t, v := |s.tasks|, NextVersion(s);
    [FromOutside(ReadPlan(0)), OfPass(t, EvaluatePlan(e)),
     OfPass(t, SaveAction(if s.actions == [] then None else Some(v), false)),
     OfPass(t, RecordDecision(0)), FromOutside(ReadAction(v + 1)), OfPass(t + 1, RecordExecution(0, 0, SOME_HEALTH, 0))]
  }

  /** The same, and the backend call that follows. */
  function RoundEvents(s: State, e: Guardrails.Evaluation): seq<Event> {
    RecordingEvents(s, e) + [OfPass(|s.tasks| + 1, CallExecute(Some(0), SOME_RESULT, None, 0))]
  }

  lemma RunOne(s: State, e: Event)
    ensures Run(s, [e]) == Step(s, e)
  {
    hide Step;
    assert [e][..0] == [];
    assert Run(s, [e][..0]) == s;
  }

  lemma RunFirst(s: State, e: Event, es: seq<Event>)
    ensures Run(s, [e] + es) == Run(Step(s, e), es)
  {
    hide Step;
    RunJoins(s, [e], es);
    RunOne(s, e);
  }

  lemma PassSaves(s: State, e: Guardrails.Evaluation)
    requires Open(s, e)
    ensures Run(s, RecordingEvents(s, e)[..3]) == Saved(s, e)
  {
    hide Step, Saved, MayEvaluate;
    var es, ts := RecordingEvents(s, e), s.tasks;
    PlanIsRead(s);
    var s1 := s.(tasks := ts + [PlanObserved(0)]);
    PlanIsEvaluated(s1, ts, e);
    var s2 := s.(tasks := ts + [PlanEvaluated(0, e)]);
    ActionIsFound(s2, ts, e);
    RunFirst(s, es[0], es[1..3]);
    RunFirst(s1, es[1], es[2..3]);
    RunOne(s2, es[2]);
    assert es[..3] == [es[0]] + es[1..3] && es[1..3] == [es[1]] + es[2..3] && es[2..3] == [es[2]];
    assert s2.(tasks := ts) == s;
  }

  /** One more decision and recorded dispatch of the action that a plan pass has saved as version v. */
  function Turned(s: State, e: Guardrails.Evaluation, v: nat): State
    requires Runnable(s, e) && v + 1 == |s.actions| && Again(s, e, s.actions[v])
  {
    DecisionReopens(s.actions[v], e, 0);
    var s1 := Landed(s, v, PlanDecision(e, 0));
    Landed(s1, v + 1, DispatchRecord(CapturedFor(s, s1.actions[v + 1]), 0))
  }

  function RecordedTasks(ts: seq<Task>, e: Guardrails.Evaluation, v: nat): seq<Task> {
    ts + [PlanDecided(0, e, v + 1)] + [Recorded(v + 1)]
  }

  lemma PassRecords(s: State, ts: seq<Task>, e: Guardrails.Evaluation, v: nat, es: seq<Event>)
    requires Runnable(s, e) && !s.deleted && v + 1 == |s.actions| && Again(s, e, s.actions[v])
    requires s.tasks == ts + [PlanSaved(0, e, v)]
    requires es == [OfPass(|ts|, RecordDecision(0)), FromOutside(ReadAction(v + 1)),
                    OfPass(|ts| + 1, RecordExecution(0, 0, SOME_HEALTH, 0))]
    ensures Run(s, es) == Turned(s, e, v).(tasks := RecordedTasks(ts, e, v))
  {
    hide Step, MayEvaluate, BackendFor, Text.TrimSpace, DecisionStatus, Stored, DispatchRequest, Route,
         FirstSpec, AppliedUID;
    var a := s.actions[v];
    DecisionReopens(a, e, 0);
    var b := After(a, PlanDecision(e, 0));
    TargetIsCaptured(s, e, b);
    DecisionIsWritten(s, ts, e, v);
    var ts1 := ts + [PlanDecided(0, e, v + 1)];
    var s1 := Landed(s.(tasks := ts1), v, PlanDecision(e, 0));
    ActionIsRead(s1, v + 1);
    var s2 := s1.(tasks := ts1 + [Observed(v + 1)]);
    DispatchIsWritten(s2, ts1, v + 1, CapturedFor(s, b));
    RunFirst(s, es[0], es[1..]);
    RunFirst(s1, es[1], es[2..]);
    RunOne(s2, es[2]);
    assert es == [es[0]] + es[1..] && es[1..] == [es[1]] + es[2..] && es[2..] == [es[2]];
  }

  lemma SavedIsOpen(s: State, e: Guardrails.Evaluation)
    requires Open(s, e)
    ensures var s0, v := Saved(s, e), NextVersion(s);
            Runnable(s0, e) && !s0.deleted && v + 1 == |s0.actions| && Again(s0, e, s0.actions[v])
            && s0.tasks == s.tasks + [PlanSaved(0, e, v)]
  {
    hide MayEvaluate, BackendFor, Text.TrimSpace, AppliedSpec, AppliedUID;
  }

  /** From any open state the six events decide the action and record its dispatch. */
  lemma ActionIsRecorded(s: State, e: Guardrails.Evaluation)
    requires Open(s, e)
    ensures Runnable(Saved(s, e), e) && NextVersion(s) + 1 == |Saved(s, e).actions|
    ensures Again(Saved(s, e), e, Saved(s, e).actions[NextVersion(s)])
    ensures Run(s, RecordingEvents(s, e))
         == Turned(Saved(s, e), e, NextVersion(s)).(tasks := RecordedTasks(s.tasks, e, NextVersion(s)))
  {
    hide Step, Run, MayEvaluate, BackendFor, Text.TrimSpace, Saved, Again, Turned;
    var es, v := RecordingEvents(s, e), NextVersion(s);
    SavedIsOpen(s, e);
    PassSaves(s, e);
    RunJoins(s, es[..3], es[3..]);
    assert es == es[..3] + es[3..];
    PassRecords(Saved(s, e), s.tasks, e, v, es[3..]);
  }

  /** The decision of a further round comes after a dispatch, so it counts; that of the first does not. */
  lemma TurnedCounts(s: State, e: Guardrails.Evaluation, v: nat)
    requires Runnable(s, e) && v + 1 == |s.actions| && |s.writes| == v && Again(s, e, s.actions[v])
    ensures var r, before := Turned(s, e, v), Dispatches(s.writes, |s.writes|);
            Again(s, e, r.actions[v + 2]) && Dispatches(r.writes, |r.writes|) == before + 1
            && RedecisionsOf(r) == RedecisionsOf(s) + (if before > 0 then 1 else 0)
  {
    hide MayEvaluate, BackendFor, Text.TrimSpace, DecisionStatus, Stored, DispatchRequest, CapturedBaseline, Route,
         FirstSpec, AppliedUID, Unverified, HasExecutionId, Dispatches, Redecisions;
    DecisionReopens(s.actions[v], e, 0);
    var s1 := Landed(s, v, PlanDecision(e, 0));
    var w := DispatchRecord(CapturedFor(s, s1.actions[v + 1]), 0);
    DispatchStaysOpen(s, e, s1.actions[v + 1], CapturedFor(s, s1.actions[v + 1]));
    WriteCounts(s.writes, PlanDecision(e, 0));
    WriteCounts(s1.writes, w);
  }

  lemma TurnedGrows(s: State, e: Guardrails.Evaluation, v: nat)
    requires Runnable(s, e) && v + 1 == |s.actions| && Again(s, e, s.actions[v])
    ensures var r := Turned(s, e, v);
            |r.actions| == v + 3 && |r.writes| == |s.writes| + 2
            && r.actions[v + 1].status.approval.Some? && r == s.(actions := r.actions, writes := r.writes)
  {
    hide MayEvaluate, BackendFor, Text.TrimSpace, Stored, DecisionStatus, FirstSpec, AppliedUID, CapturedFor,
         DispatchStatus;
    DecisionReopens(s.actions[v], e, 0);
  }

  lemma SamePlanSameRound(s: State, r: State, e: Guardrails.Evaluation, a: AgentAction)
    requires s.plans != [] && r.plans == s.plans && r.deployments == s.deployments && r.policy == s.policy
    ensures Runnable(r, e) == Runnable(s, e) && Again(r, e, a) == Again(s, e, a)
  {
    hide MayEvaluate, BackendFor, AppliedSpec, AppliedUID, Text.TrimSpace;
  }

  lemma RoundTurns(s: State, e: Guardrails.Evaluation, n: nat)
    requires Round(s, e, n)
    ensures Round(Run(s, RoundEvents(s, e)), e, n + 1)
  {
    hide Step, Run, MayEvaluate, BackendFor, Text.TrimSpace, AppliedSpec, AppliedUID, Dispatches, Redecisions,
         HasExecutionId, Turned, RecordingEvents, Again, Unverified;
    var s0, v := Saved(s, e), if n == 0 then 0 else 2 * n;
    ActionIsRecorded(s, e);
    SavedIsOpen(s, e);
    TurnedCounts(s0, e, v);
    TurnedGrows(s0, e, v);
    var recorded := Turned(s0, e, v).(tasks := RecordedTasks(s.tasks, e, v));
    var call := OfPass(|s.tasks| + 1, CallExecute(Some(0), SOME_RESULT, None, 0));
    RunJoins(s, RecordingEvents(s, e), [call]);
    RunOne(recorded, call);
    BackendIsCalled(recorded, s.tasks + [PlanDecided(0, e, v + 1)], v + 1);
    SamePlanSameRound(s0, Step(recorded, call), e, recorded.actions[v + 2]);
  }

  /** In every initial state whose plan is approved automatically, n decisions again can bring n + 1 Execute calls. */
  lemma BoundIsReached(s: State, e: Guardrails.Evaluation, n: nat)
    requires Initial(s) && Runnable(s, e)
    ensures exists es :: |Run(s, es).calls| == n + 1 && RedecisionsOf(Run(s, es)) == n
  {
    hide Step, RoundEvents, Runnable;
    var es, k := [], 0;
    while k < n + 1
      invariant k <= n + 1 && Round(Run(s, es), e, k)
    {
      RoundTurns(Run(s, es), e, k);
      RunJoins(s, es, RoundEvents(Run(s, es), e));
      es, k := es + RoundEvents(Run(s, es), e), k + 1;
    }
  }
}
