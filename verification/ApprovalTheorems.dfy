/** The safety of the approved-action protocol, over every run of both controllers, users and the cluster. */
module ApprovalTheorems {
  import opened Wrappers
  import opened AgentActions
  import opened ActionHistory
  import opened ApprovalProtocol
  import opened ApprovalProtocolProofs
  import opened ApprovalInvariant
  import opened HistoryTheorems
  import Guardrails

  /** Whatever the interleaving, the versions of the action form one history of legal writes, one upon the other. */
  lemma EveryRunIsOneHistory(s: State, es: seq<Event>)
    requires Initial(s)
    ensures var r := Run(s, es);
            r.actions == [] || Serial(HistoryOf(r))
  {
    hide Initial, Run, Serial;
    RunInv(s, es);
  }

  // ------------------------------------------------------------- execute at most once

  /** The positions of the recorded dispatches. */
  function DispatchSet(ws: seq<Write>, n: nat): (d: set<nat>)
    requires n <= |ws|
    ensures forall k: nat :: k in d <==> k < n && ws[k].DispatchRecord?
    ensures |d| == Dispatches(ws, n)
  {
    if n == 0 then {} else DispatchSet(ws, n - 1) + (if ws[n - 1].DispatchRecord? then {n - 1} else {})
  }

  lemma {:induction false} DistinctFit(xs: seq<nat>, d: set<nat>)
    requires forall i, j :: 0 <= i < j < |xs| ==> xs[i] != xs[j]
    requires forall i :: 0 <= i < |xs| ==> xs[i] in d
    ensures |xs| <= |d|
  {
    if xs != [] {
      DistinctFit(xs[1..], d - {xs[0]});
    }
  }

  /** The decisions written in a run after a dispatch had been recorded. */
  function RedecisionsOf(s: State): nat {
    Redecisions(s.writes, |s.writes|)
  }

  /**
    Backend Execute calls never outnumber the recorded dispatches, and these are at most one more than the decisions
    that the plan's side wrote after the first dispatch.
   */
  lemma ExecuteCallsAreBounded(s: State, es: seq<Event>)
    requires Initial(s)
    ensures var r := Run(s, es);
            |r.calls| <= Dispatches(r.writes, |r.writes|) <= 1 + RedecisionsOf(r)
  {
    hide Initial, Run, Serial;
    RunInv(s, es);
    var r := Run(s, es);
    DistinctFit(r.calls, DispatchSet(r.writes, |r.writes|));
    if r.actions != [] || r.writes != [] {
      SerialLengths(HistoryOf(r));
      DispatchBound(HistoryOf(r));
    }
  }

  lemma SerialLengths(h: History)
    requires Serial(h)
    ensures |h.versions| == |h.writes| + 1
  {
  }

  /** Unless a decision is written after a dispatch, an action is executed at most once. */
  lemma ExecutedAtMostOnce(s: State, es: seq<Event>)
    requires Initial(s) && RedecisionsOf(Run(s, es)) == 0
    ensures |Run(s, es).calls| <= 1
  {
    hide Initial, Run;
    ExecuteCallsAreBounded(s, es);
  }

  // ------------------------------------------------------------------- write ahead

  /** Version w + 1 is the executing version whose identity the dispatch of version w uses. */
  predicate RecordedAhead(s: State, w: int) {
    0 <= w && w + 1 < |s.actions|
    && var a, b := s.actions[w], s.actions[w + 1];
       b.spec == a.spec && b.status.phase == Executing && b.status.approval.Some? && b.status.execution.Some?
       && b.status.execution.value.executionID == Identity(a)
       && b.status.approval.value.approved && b.status.approval.value.actionDigest == SpecDigest(b.spec)
  }

  lemma DispatchIsRecorded(a: AgentAction, w: Write)
    requires Legal(a, w) && w.DispatchRecord?
    ensures var b := After(a, w);
            b.spec == a.spec && b.status.phase == Executing && b.status.approval.Some? && b.status.execution.Some?
            && b.status.execution.value.executionID == Identity(a)
            && b.status.approval.value.approved && b.status.approval.value.actionDigest == SpecDigest(b.spec)
  {
  }

  /** At every moment of every run, each call made so far has its non-empty identity already stored. */
  lemma CallsAreRecordedAhead(s: State, es: seq<Event>, c: nat)
    requires Initial(s) && c < |Run(s, es).calls|
    ensures RecordedAhead(Run(s, es), Run(s, es).calls[c])
  {
    hide Initial, Run, Legal, After, TaskOk;
    RunInv(s, es);
    var r := Run(s, es);
    var w := r.calls[c];
    assert IsDispatch(r, w) && Serial(HistoryOf(r));
    assert Follows(r.actions[w], r.writes[w], r.actions[w + 1]);
    DispatchIsRecorded(r.actions[w], r.writes[w]);
  }

  // -------------------------------------------------------------- decided and approved

  /** Decision j, made from the undecided plan version p, covers the content that write w dispatches, and it did not reject it. */
  predicate Covers(s: State, w: int, j: int, p: int) {
    0 <= j < w < |s.writes| && w + 1 < |s.actions| && s.writes[j].PlanDecision?
    && FromPlan(s, p, s.writes[j].evaluation, j)
    && SpecDigest(s.actions[j].spec) == SpecDigest(s.actions[w].spec)
    && match s.writes[j].evaluation.decision
       case Auto => true
       case Manual => s.actions[w + 1].spec.approvedBy != ""
       case Reject => false
  }

  /** Nothing reaches the backend that was not decided for exactly this content, and by hand only when signed. */
  lemma OnlyDecidedContentIsExecuted(s: State, es: seq<Event>, c: nat)
    requires Initial(s) && c < |Run(s, es).calls|
    ensures var r := Run(s, es);
            exists j, p :: Covers(r, r.calls[c], j, p)
  {
    hide Initial, Run, Legal, After, TaskOk, FromPlan, Serial, FactsOf;
    RunInv(s, es);
    var r := Run(s, es);
    var w := r.calls[c];
    assert IsDispatch(r, w);
    SerialLengths(HistoryOf(r));
    DispatchIsApproved(HistoryOf(r), w);
    var xs, digest := AllFacts(r.actions), SpecDigest(r.actions[w].spec);
    var j: int;
    if Decided(xs, r.writes, w, digest, Guardrails.Auto) {
      j :| 0 <= j < w && DecidedAt(xs, r.writes, j, digest, Guardrails.Auto);
    } else {
      j :| 0 <= j < w && DecidedAt(xs, r.writes, j, digest, Guardrails.Manual);
    }
    FactsOfDigest(r.actions[j]);
    var p :| FromPlan(r, p, r.writes[j].evaluation, j);
    assert Covers(r, w, j, p);
  }

  /** What is executed is what the plan says, with the result of the evaluation; the approver is not part of it. */
  lemma CoveredContentIsThePlans(s: State, w: int, j: int, p: int)
    requires Covers(s, w, j, p)
    ensures var spec, plan, evaluation := s.actions[w].spec, s.plans[p].spec, s.writes[j].evaluation;
            spec.target == plan.target && spec.actionType == plan.actionType && spec.parameters == plan.parameters
            && spec.ttlSeconds == plan.ttlSeconds && spec.rollbackPlan == plan.rollbackPlan
            && spec.dryRunResult == evaluation.dryRunResult
            && spec.approvalTimeoutSeconds
               == (if evaluation.approvalTimeoutSeconds <= 0 then plan.approvalTimeoutSeconds
                   else evaluation.approvalTimeoutSeconds)
  {
    hide Legal, After, Guardrails.Evaluate;
    var spec := AppliedSpec(s.plans[p], s.writes[j].evaluation, NO_SPEC);
    DigestIgnoresOnlyTheApprover(s.actions[w].spec, spec);
  }

  /** The plan that was decided on is within what the legacy engine approves without a human. */
  predicate WithinLimit(s: State, p: int) {
    0 <= p < |s.plans|
    && s.plans[p].spec.severity in Guardrails.UpTo(Guardrails.AutoLimit(s.policy))
    && !Guardrails.Guarded(s.policy, s.plans[p].spec.target.namespace, s.plans[p].spec.severity)
  }

  /** A decision of the legacy engine lets only listed actions run, and beyond its limit only signed ones. */
  predicate WithinLegacyLimits(s: State, w: int, j: int, p: int)
    requires Covers(s, w, j, p)
  {
    s.writes[j].evaluation.policy.None? ==>
      s.actions[w].spec.actionType in s.policy.allowedActionTypes
      && (s.writes[j].evaluation.decision == Guardrails.Auto <==> WithinLimit(s, p))
      && (WithinLimit(s, p) || s.actions[w + 1].spec.approvedBy != "")
  }

  /**
    In every run, when no ApprovalPolicy matched: what runs is on the allow list, and a plan above the limit of
    automatic approval, or of high severity for a protected namespace, runs only with an approver named. That name was
    written by a user, or it is the one that an automatic decision left.
   */
  lemma LegacyEngineLimitsWhatRuns(s: State, es: seq<Event>, c: nat)
    requires Initial(s) && c < |Run(s, es).calls|
    ensures var r := Run(s, es);
            exists j, p :: Covers(r, r.calls[c], j, p) && WithinLegacyLimits(r, r.calls[c], j, p)
    ensures var r := Run(s, es);
            var name := r.actions[r.calls[c] + 1].spec.approvedBy;
            r.calls[c] + 1 < |r.actions| && (name == "" || name in r.named || name == Guardrails.AUTO_APPROVER)
  {
    hide Initial, Run, TasksOk, Covers, OneHistory, WithinLegacyLimits, Named;
    RunInv(s, es);
    OnlyDecidedContentIsExecuted(s, es, c);
    var r := Run(s, es);
    var j, p :| Covers(r, r.calls[c], j, p);
    CoveredIsWithinLimits(r, r.calls[c], j, p);
    CoveredIsStored(r, r.calls[c], j, p);
    NamesOfAutomaticDecisions(r, r.actions[r.calls[c] + 1].spec.approvedBy);
  }

  lemma CoveredIsStored(s: State, w: int, j: int, p: int)
    requires Covers(s, w, j, p)
    ensures 0 <= w && w + 1 < |s.actions|
  {
  }

  lemma NamesOfAutomaticDecisions(s: State, name: string)
    requires Named(s, name)
    ensures name == "" || name in s.named || name == Guardrails.AUTO_APPROVER
  {
    hide Guardrails.Evaluate;
  }

  lemma CoveredIsWithinLimits(s: State, w: int, j: int, p: int)
    requires Covers(s, w, j, p)
    ensures WithinLegacyLimits(s, w, j, p)
  {
    hide Legal, After, Guardrails.Evaluate, Guardrails.UpTo;
    var plan, evaluation := s.plans[p], s.writes[j].evaluation;
    var spec := AppliedSpec(plan, evaluation, NO_SPEC);
    assert SpecDigest(s.actions[w].spec) == SpecDigest(spec);
    assert s.actions[w].spec.actionType == spec.actionType && s.actions[w].spec.target == spec.target;
    Guardrails.DecidesExactlyWhen(s.policy, plan.spec.target.namespace, plan.spec.actionType, plan.spec.severity);
  }

  // -------------------------------------------------------------- the right target

  /** The patch of write w is about an object that some stored Deployment version, i, was. */
  predicate AimsAt(s: State, w: nat, i: int) {
    0 <= i < |s.deployments| && w < |s.actions| && s.deployments[i].uid == TargetUID(s.actions[w])
  }

  /**
    In every run, a patch under way is a rollout restart of a Deployment with all fields given, and some stored version
    of that Deployment was the very object that the action names. So it can land on another object only after that one
    was replaced.
   */
  lemma PatchesAreOfTheTarget(s: State, es: seq<Event>, t: nat)
    requires Initial(s) && t < |Run(s, es).tasks| && Run(s, es).tasks[t].Patching?
    ensures var r := Run(s, es);
            var w := r.tasks[t].w;
            w < |r.actions| && r.tasks[t].patch.executionID == Identity(r.actions[w])
            && var spec := r.actions[w].spec;
               spec.actionType == RolloutRestart && spec.target.kind == DeploymentKind
               && spec.target.apiVersion in {NoApiVersion, AppsV1}
               && "" !in {spec.target.namespace, spec.target.name, TargetUID(r.actions[w])}
               && exists i :: AimsAt(r, w, i)
    ensures var r := Run(s, es);
            var w := r.tasks[t].w;
            r.deployments != [] && w < |r.actions|
            && (Live(r).uid != TargetUID(r.actions[w]) ==>
                  exists i :: AimsAt(r, w, i) && i + 1 < |r.deployments| && r.deployments[i + 1].uid != r.deployments[i].uid)
  {
    hide Initial, Run, OneHistory, CalledOnce, PlansBacked, SuccessesAreReal, ApproversNamed, AnnotationsKept, TargetUID,
      SpecDigest;
    RunInv(s, es);
    var r := Run(s, es);
    assert TaskOk(r, r.tasks[t]);
    var w := r.tasks[t].w;
    var i :| 0 <= i < |r.deployments| && r.deployments[i].uid == DispatchRequest(r.actions[w]).targetUID;
    assert AimsAt(r, w, i);
    if Live(r).uid != TargetUID(r.actions[w]) {
      LastOfTheTarget(r, w, i);
    }
  }

  lemma {:induction false} LastOfTheTarget(s: State, w: nat, i: nat)
    requires AimsAt(s, w, i) && Live(s).uid != TargetUID(s.actions[w])
    ensures exists k :: AimsAt(s, w, k) && k + 1 < |s.deployments| && s.deployments[k + 1].uid != s.deployments[k].uid
    decreases |s.deployments| - i
  {
    hide TargetUID;
    assert i + 1 < |s.deployments|;
    if s.deployments[i + 1].uid == TargetUID(s.actions[w]) {
      LastOfTheTarget(s, w, i + 1);
    }
  }

  /** In every run, a recorded baseline is one of the object that the action names. */
  lemma BaselinesAreOfTheirTarget(s: State, es: seq<Event>, k: nat)
    requires Initial(s) && k < |Run(s, es).writes| && Run(s, es).writes[k].DispatchRecord?
    requires Run(s, es).writes[k].baseline.Some?
    ensures var r := Run(s, es);
            var uid := r.writes[k].baseline.value.targetUID;
            k < |r.actions| && uid == TargetUID(r.actions[k]) != "" && exists i :: AimsAt(r, k, i)
  {
    hide Initial, Run, Serial, TasksOk, CalledOnce, PlansBacked, SuccessesAreReal, ApproversNamed, AnnotationsKept,
      TargetUID, SpecDigest, Named;
    RunInv(s, es);
    var r := Run(s, es);
    SerialLengths(HistoryOf(r));
    assert OfTheTarget(r, r.actions[k], r.writes[k].baseline.value);
    var i :| 0 <= i < |r.deployments| && r.deployments[i].uid == r.writes[k].baseline.value.targetUID;
    assert AimsAt(r, k, i);
  }

  // ------------------------------------------------------------ what a result leaves

  /** What the record of this answer leaves on an action. */
  predicate Leaves(w: Write, before: Status, b: Status, result: Result, error: Option<FailureReason>) {
    && (w.SuccessRecord? <==> error.None?) && (b.phase == Succeeded <==> error.None?)
    && (w.UnknownRecord? <==> error.Some? && result.outcome == OutcomeUnknown)
    && (w.FailureRecord? <==> error.Some? && result.outcome != OutcomeUnknown)
    && (b.phase == Executing <==> w.UnknownRecord?) && (b.phase == Failed <==> w.FailureRecord?)
    && b.execution.Some?
    && (w.UnknownRecord? ==>
          b.execution.value.phase == Some(ExecutionUnknown) && b.execution.value.outcome == OutcomeUnknown)
    && (w.FailureRecord? ==>
          b.execution.value.phase == Some(ExecutionFailed) && b.execution.value.outcome == OutcomeFailed)
    && (before.execution.Some? && !w.SuccessRecord? ==>
          b.execution.value.executionID == before.execution.value.executionID)
  }

  ghost predicate RecordsAnswer(s: State, r: State, result: Result, error: Option<FailureReason>) {
    s.actions != [] && |r.writes| == |s.writes| + 1 && |r.actions| == |s.actions| + 1
    && Leaves(r.writes[|s.writes|], s.actions[|s.actions| - 1].status, r.actions[|s.actions|].status, result, error)
  }

  /**
    In every run, when a pass that has its backend's answer stores anything, it stores a success exactly for an answer
    without an error, a failure exactly for an error whose outcome is known, and otherwise that the outcome is unknown.
   */
  lemma UnknownIsNotFailure(s: State, es: seq<Event>, t: nat, m: Move)
    requires Initial(s) && t < |Run(s, es).tasks| && Run(s, es).tasks[t].Reloaded?
    ensures var r := Run(s, es);
            r.actions != []
            && (SameStores(r, Step(r, OfPass(t, m)))
                || RecordsAnswer(r, Step(r, OfPass(t, m)), r.tasks[t].result, r.tasks[t].error))
  {
    hide Initial, Run, OneHistory, CalledOnce, PlansBacked, SuccessesAreReal, ApproversNamed, AnnotationsKept, Step,
      RecordsAnswer, SameStores;
    RunInv(s, es);
    assert TaskOk(Run(s, es), Run(s, es).tasks[t]);
    AnswerIsRecorded(Run(s, es), t, m);
  }

  lemma AnswerIsRecorded(s: State, t: nat, m: Move)
    requires t < |s.tasks| && s.tasks[t].Reloaded? && s.actions != []
    ensures SameStores(s, Step(s, OfPass(t, m)))
            || RecordsAnswer(s, Step(s, OfPass(t, m)), s.tasks[t].result, s.tasks[t].error)
  {
    hide PlanIntent, ActionIntent, DispatchRequest, Legal, After, Leaves;
    var i := IntentOf(s, s.tasks[t], m);
    if !m.Crash? && i.Store? && Accepted(s, i) {
      AnswerLeaves(s.actions[i.v], i.write, s.tasks[t].result, s.tasks[t].error);
    }
  }

  lemma AnswerLeaves(a: AgentAction, w: Write, result: Result, error: Option<FailureReason>)
    requires Legal(a, w)
    requires match error
             case None => w.SuccessRecord?
             case Some(_) => (if result.outcome == OutcomeUnknown then w.UnknownRecord? && w.result == result
                             else w.FailureRecord?)
    ensures Leaves(w, a.status, After(a, w).status, result, error)
  {
    hide FinishedAt, RecordedStart, HasBaseline;
  }

  /** The pass stored a success about an identity that a template carried, on the version it had read. */
  ghost predicate Recovers(s: State, v: nat, r: State) {
    v + 1 == |s.actions| && |r.actions| == |s.actions| + 1 && |r.writes| == |s.writes| + 1
    && r == s.(actions := r.actions, writes := r.writes, tasks := r.tasks)
    && var w := r.writes[|s.writes|];
       w.SuccessRecord? && w.result.outcome == OutcomeSucceeded && HasExecutionId(s.actions[v].status)
       && w.result.executionID == s.actions[v].status.execution.value.executionID && Carried(s, w.result.executionID)
  }

  /** In every run, a pass that has read a recorded execution never executes: it recovers its success, or stores nothing. */
  lemma ResolvingOnlyRecovers(s: State, es: seq<Event>, t: nat, v: nat, m: Move)
    requires Initial(s) && t < |Run(s, es).tasks| && Run(s, es).tasks[t] == Observed(v)
    requires v < |Run(s, es).actions| && Route(Run(s, es).actions[v]) == ResolveOnly
    ensures var r := Run(s, es);
            SameStores(r, Step(r, OfPass(t, m))) || Recovers(r, v, Step(r, OfPass(t, m)))
  {
    hide Initial, Run;
    ResolvingStep(Run(s, es), t, v, m);
  }

  lemma ResolvingStep(s: State, t: nat, v: nat, m: Move)
    requires t < |s.tasks| && s.tasks[t] == Observed(v) && v < |s.actions| && Route(s.actions[v]) == ResolveOnly
    ensures SameStores(s, Step(s, OfPass(t, m))) || Recovers(s, v, Step(s, OfPass(t, m)))
  {
    hide PlanIntent, BackendIntent, Legal, After;
    if m.ResolveExecution? && m.seen < |s.deployments| {
      assert s.deployments[m.seen].executionID == s.deployments[m.seen].executionID;
    }
  }

  // ------------------------------------------------------------- the effect on the target

  /**
    While nobody else writes the two annotations, an identity changes the pod template at most once, and once more
    for each time that another identity replaced it. Reads of old Deployment versions are included.
   */
  lemma TemplateChangesAreBounded(s: State, es: seq<Event>, id: ExecutionId)
    requires Initial(s) && Run(s, es).foreign == 0 && id != NoIdentity
    ensures var r := Run(s, es);
            r.deployments != []
            && r.changes[id] <= r.departures[id] + (if Live(r).executionID == id then 1 else 0)
  {
    hide Initial, Run, OneHistory, TasksOk;
    RunInv(s, es);
  }

  lemma TemplateChangesOncePerIdentity(s: State, es: seq<Event>, id: ExecutionId)
    requires Initial(s) && Run(s, es).foreign == 0 && id != NoIdentity
    requires Run(s, es).departures[id] == 0
    ensures Run(s, es).changes[id] <= 1
  {
    hide Initial, Run;
    TemplateChangesAreBounded(s, es, id);
  }

  /** Every success reported by the Kubernetes backend, resolved or executed, is about a template that carried it. */
  lemma SuccessMeansCarried(s: State, es: seq<Event>, v: nat)
    requires Initial(s) && v < |Run(s, es).actions| && SucceededByKubernetes(Run(s, es).actions[v])
    ensures Carried(Run(s, es), Run(s, es).actions[v].status.execution.value.executionID)
  {
    hide Initial, Run, OneHistory, TasksOk;
    RunInv(s, es);
  }

  // ----------------------------------------------------------------- no decision lost

  predicate SameContent(s: State, v: int, j: int) {
    0 <= v <= j < |s.actions| && forall k :: v <= k <= j ==> SpecDigest(s.actions[k].spec) == SpecDigest(s.actions[v].spec)
  }

  /** Version v records this decision, and so does every later one up to the first that has other content. */
  ghost predicate StaysOnRecord(s: State, v: int, decision: Guardrails.Decision) {
    RecordsDecision(s, v, decision) && forall j :: SameContent(s, v, j) ==> HoldsDecision(FactsOf(s.actions[j]))
  }

  lemma RecordedDecisionStays(s: State, v: nat, j: nat, decision: Guardrails.Decision)
    requires Serial(HistoryOf(s)) && RecordsDecision(s, v, decision) && SameContent(s, v, j)
    ensures HoldsDecision(FactsOf(s.actions[j]))
  {
    hide Serial, FactsOf;
    var h := HistoryOf(s);
    SerialLengths(h);
    HistoriesAreLines(h);
    var xs := AllFacts(h.versions);
    RecordHolds(s.actions[v], decision);
    forall k | v <= k <= j
      ensures xs[k].digest == xs[v].digest
    {
      FactsOfDigest(s.actions[k]);
      FactsOfDigest(s.actions[v]);
    }
    DecisionStays(xs, h.writes, v, j);
  }

  lemma RecordHolds(a: AgentAction, decision: Guardrails.Decision)
    requires Records(a, decision)
    ensures HoldsDecision(FactsOf(a))
  {
  }

  /**
    In every run, a plan that looks approved or waiting has that decision on record in its action, where a decision
    stays on record as long as the content does.
   */
  lemma DecidedPlansAreRecorded(s: State, es: seq<Event>, p: nat)
    requires Initial(s) && p < |Run(s, es).plans| && Decisive(Run(s, es).plans[p].phase)
    ensures var r := Run(s, es);
            exists v :: StaysOnRecord(r, v, DecisionOf(r.plans[p].phase))
  {
    hide Initial, Run, TasksOk, Serial, Records, HoldsDecision;
    RunInv(s, es);
    var r := Run(s, es);
    assert PlanBacked(r, r.plans[p]);
    var decision := DecisionOf(r.plans[p].phase);
    var v :| RecordsDecision(r, v, decision);
    forall j | SameContent(r, v, j)
      ensures HoldsDecision(FactsOf(r.actions[j]))
    {
      RecordedDecisionStays(r, v, j, decision);
    }
    assert StaysOnRecord(r, v, decision);
  }

  /** With a notifier, an action is escalated only on top of the record of the attempt that was answered. */
  lemma EscalationFollowsItsNotice(s: State, es: seq<Event>, j: nat)
    requires Initial(s) && s.hasNotifier && j < |Run(s, es).writes| && Run(s, es).writes[j].Escalation?
    ensures var ws := Run(s, es).writes;
            ws[j].notified && j > 0 && ws[j - 1] == NotifyAttempt(ws[j].now)
  {
    hide Initial, Step, OneHistory, TasksOk, Inv;
    RunInv(s, es);
    NotifierStays(s, es);
    FromInv(Run(s, es));
  }

  lemma FromInv(s: State)
    requires Inv(s)
    ensures EscalationsFollowNotices(s)
  {
  }

  lemma {:induction false} NotifierStays(s: State, es: seq<Event>)
    requires Initial(s)
    ensures Run(s, es).hasNotifier == s.hasNotifier
  {
    hide Initial, Step, Inv;
    if es != [] {
      var before := Run(s, es[..|es| - 1]);
      NotifierStays(s, es[..|es| - 1]);
      RunInv(s, es[..|es| - 1]);
      StepKeepsNotifier(before, es[|es| - 1]);
    }
  }

  lemma StepKeepsNotifier(s: State, e: Event)
    requires Inv(s)
    ensures Step(s, e).hasNotifier == s.hasNotifier
  {
    hide OneHistory, Step, PassesKept;
    OneStepOf(s, e);
  }

  lemma OneStepOf(s: State, e: Event)
    requires Inv(s)
    ensures Moved(s, Step(s, e))
  {
    hide OneHistory, Step, Moved;
    OneStep(s, e);
  }

  // ------------------------------------------------------------------ waiting in time

  /** A version that waits with a decision on record for its content. */
  predicate Waiting(a: AgentAction) {
    Route(a) == Pending && !NeedsFreshPending(a)
  }

  predicate Due(a: AgentAction, now: Time) {
    TimeoutApplies(a) && now >= Deadline(a)
  }

  /** What may land on a waiting version: edits, decisions and late outcomes at any time, the rest once it is due. */
  predicate InTime(a: AgentAction, w: Write) {
    match w
    case NotifyAttempt(now) => Due(a, now)
    case Escalation(_, now) => Due(a, now)
    case PendingRecord(_) => false
    case DispatchRecord(_, _) => false
    case DispatchRefusal(_, _, _) => false
    case VerificationStart(_, _) => false
    case VerificationEnd(_, _, _, _) => false
    case _ => true
  }

  lemma LegalOnWaiting(a: AgentAction, w: Write)
    requires Waiting(a) && Legal(a, w)
    ensures InTime(a, w)
  {
    hide AwaitsVerification, Reached, Deadline;
  }

  /** In every run, nothing that the action controller itself decides lands on a waiting version before its deadline. */
  lemma WaitingVersionsChangeInTime(s: State, es: seq<Event>, k: nat)
    requires Initial(s) && k < |Run(s, es).writes| && k < |Run(s, es).actions| && Waiting(Run(s, es).actions[k])
    ensures InTime(Run(s, es).actions[k], Run(s, es).writes[k])
  {
    hide Initial, Run, Legal, After, TaskOk, InTime, Waiting;
    RunInv(s, es);
    var r := Run(s, es);
    SerialLengths(HistoryOf(r));
    assert Follows(r.actions[k], r.writes[k], r.actions[k + 1]);
    LegalOnWaiting(r.actions[k], r.writes[k]);
  }

  /** The stores and the calls of two states are the same; only passes may be elsewhere. */
  predicate SameStores(s: State, r: State) {
    r == s.(tasks := r.tasks)
  }

  /**
    In every run, a pass that has read a waiting version changes nothing before its deadline, whatever it does next,
    and a pass that waits for its notifier's answer has stored its attempt at or after the deadline.
   */
  lemma WaitingPassesWriteNothingEarly(s: State, es: seq<Event>, t: nat, m: Move)
    requires Initial(s) && t < |Run(s, es).tasks|
    ensures match Run(s, es).tasks[t]
            case Observed(v) =>
              v < |Run(s, es).actions|
              && (Waiting(Run(s, es).actions[v]) && (m.CheckDeadline? ==> !Due(Run(s, es).actions[v], m.now)) ==>
                    SameStores(Run(s, es), Step(Run(s, es), OfPass(t, m))))
            case Notified(v, now) => v < |Run(s, es).actions| && Due(Run(s, es).actions[v], now)
            case _ => true
  {
    hide Initial, Run, OneHistory, Step, Due, Waiting, SameStores;
    RunInv(s, es);
    var r := Run(s, es);
    assert TaskOk(r, r.tasks[t]);
    match r.tasks[t] {
      case Observed(v) =>
        if Waiting(r.actions[v]) && (m.CheckDeadline? ==> !Due(r.actions[v], m.now)) {
          EarlyPassStays(r, t, v, m);
        }
      case Notified(v, now) => AnnouncedIsDue(r, v, now);
      case _ =>
    }
  }

  lemma AnnouncedIsDue(s: State, v: nat, now: Time)
    requires Announced(s, v, now)
    ensures Due(s.actions[v], now)
  {
  }

  lemma EarlyPassStays(s: State, t: nat, v: nat, m: Move)
    requires t < |s.tasks| && v < |s.actions| && s.tasks[t] == Observed(v) && Waiting(s.actions[v])
    requires m.CheckDeadline? ==> !Due(s.actions[v], m.now)
    ensures SameStores(s, Step(s, OfPass(t, m)))
  {
    hide PlanIntent, BackendIntent, Legal, After, Route, NeedsFreshPending, Landed, PatchLanded;
    var intent := IntentOf(s, s.tasks[t], m);
    assert m.Crash? || intent == Stay || intent == Become(Idle);
  }
}
