/** The invariant of the approved-action protocol, kept by every event, and so by every run. */
module ApprovalInvariant {
  import opened Wrappers
  import opened AgentActions
  import opened ActionHistory
  import opened Executor
  import opened ApprovalProtocol
  import opened ApprovalProtocolProofs
  import opened HistoryTheorems

  // ------------------------------------------------------------ the stored action

  /** The stored versions form one serial history. */
  ghost predicate OneHistory(s: State) {
    (s.actions == [] && s.writes == []) || Serial(HistoryOf(s))
  }

  /** What holds of a write when it lands on the latest version, v. */
  ghost predicate LandsOk(s: State, v: int, w: Write) {
    0 <= v < |s.actions| && Legal(s.actions[v], w)
    && (w.PlanDecision? ==> exists p :: FromPlan(s, p, w.evaluation, v))
    && (w.DispatchRecord? && w.baseline.Some? ==> OfTheTarget(s, s.actions[v], w.baseline.value))
    && (w.SuccessRecord? ==> TrueSuccess(s, w.result))
    && (w.Escalation? && s.hasNotifier ==>
          w.notified && 0 < v <= |s.writes| && s.writes[v - 1] == NotifyAttempt(w.now))
  }

  ghost predicate Appends(s: State, r: State, w: Write) {
    LandsOk(s, |s.actions| - 1, w) && r.actions == s.actions + [After(s.actions[|s.actions| - 1], w)]
    && r.writes == s.writes + [w]
    && NameKept(s, r, s.actions[|s.actions| - 1].spec, r.actions[|s.actions|].spec)
  }

  /** A new version keeps the approver, or has one that is accounted for. */
  ghost predicate NameKept(s: State, r: State, before: Spec, spec: Spec) {
    spec.approvedBy == before.approvedBy || Named(s, spec.approvedBy) || spec.approvedBy in r.named
  }

  /** What one event may do to the stored action: nothing, its creation, or one write onto the latest version. */
  ghost predicate Advances(s: State, r: State) {
    || (r.actions == s.actions && r.writes == s.writes)
    || (s.actions == [] && |r.actions| == 1 && r.actions[0].status == EMPTY_STATUS && r.writes == s.writes
        && NameKept(s, r, NO_SPEC, r.actions[0].spec))
    || exists w :: Appends(s, r, w)
  }

  lemma OnlySavesName(a: AgentAction, w: Write)
    requires Legal(a, w)
    ensures After(a, w).spec == if w.PlanSave? || w.UserEdit? then w.spec else a.spec
  {
    hide Legal, NewStatus, Stored;
  }

  lemma EffectAdvances(s: State, task: Task, i: Intent)
    requires IntentOk(s, task, i) && Accepted(s, i)
    ensures Advances(s, Effect(s, i))
  {
    hide Legal, After, TaskOk, PlanBacked, Named;
    if i.Store? {
      OnlySavesName(s.actions[i.v], i.write);
      assert Appends(s, Effect(s, i), i.write);
    }
  }

  lemma OutsideAdvances(s: State, o: Outside)
    ensures Advances(s, OutsideStep(s, o))
  {
    if o.UserEdits? && !s.deleted && s.actions != [] {
      assert Appends(s, OutsideStep(s, o), UserEdit(o.spec, o.targetUIDAnnotation, o.retained));
    }
  }

  lemma EffectGrows(s: State, i: Intent)
    requires Accepted(s, i)
    ensures var r := Effect(s, i);
            Grows(s, r) && r.hasNotifier == s.hasNotifier && r.tasks == s.tasks
  {
    hide Legal, After, Patched;
  }

  lemma OutsideGrows(s: State, o: Outside)
    ensures Grows(s, OutsideStep(s, o)) && OutsideStep(s, o).hasNotifier == s.hasNotifier
  {
    hide Legal, After;
  }

  lemma SerialExtended(h: History, w: Write)
    requires Serial(h) && Legal(h.versions[|h.writes|], w)
    ensures Serial(History(h.versions + [After(h.versions[|h.writes|], w)], h.writes + [w]))
  {
    hide Legal, After;
    var r := History(h.versions + [After(h.versions[|h.writes|], w)], h.writes + [w]);
    forall k | 0 <= k < |r.writes|
      ensures Follows(r.versions[k], r.writes[k], r.versions[k + 1])
    {
      if k < |h.writes| {
        assert Follows(h.versions[k], h.writes[k], h.versions[k + 1]);
      }
    }
  }

  lemma OneHistoryKept(s: State, r: State)
    requires OneHistory(s) && Advances(s, r)
    ensures OneHistory(r)
  {
    hide Legal, After, Follows;
    if w :| Appends(s, r, w) {
      SerialExtended(HistoryOf(s), w);
    }
  }

  /** Whoever is named as approver was named by a user or by an automatic decision. */
  ghost predicate ApproversNamed(s: State) {
    forall v :: 0 <= v < |s.actions| ==> Named(s, s.actions[v].spec.approvedBy)
  }

  lemma NamedStays(s: State, r: State, name: string)
    requires Named(s, name) && Grows(s, r)
    ensures Named(r, name)
  {
    hide MayEvaluate;
    if p, evaluation :| AutoNamedBy(s, p, evaluation, name) {
      assert AutoNamedBy(r, p, evaluation, name);
    }
  }

  lemma ApproversNamedKept(s: State, r: State)
    requires ApproversNamed(s) && Advances(s, r) && Grows(s, r)
    ensures ApproversNamed(r)
  {
    hide Legal, After, Named, FromPlan, TrueSuccess;
    NobodyIsNamed(s);
    forall v | 0 <= v < |r.actions|
      ensures Named(r, r.actions[v].spec.approvedBy)
    {
      if v < |s.actions| {
        NamedStays(s, r, s.actions[v].spec.approvedBy);
      } else {
        NewNameIsNamed(s, r, if s.actions == [] then NO_SPEC else s.actions[|s.actions| - 1].spec, r.actions[v].spec);
      }
    }
  }

  lemma NobodyIsNamed(s: State)
    ensures Named(s, NO_SPEC.approvedBy)
  {
  }

  lemma NewNameIsNamed(s: State, r: State, before: Spec, spec: Spec)
    requires Named(s, before.approvedBy) && NameKept(s, r, before, spec) && Grows(s, r)
    ensures Named(r, spec.approvedBy)
  {
    hide MayEvaluate;
    if Named(s, spec.approvedBy) {
      NamedStays(s, r, spec.approvedBy);
    }
  }

  /** Every recorded decision came from a stored plan version. */
  ghost predicate DecisionsFromPlans(s: State) {
    forall j :: 0 <= j < |s.writes| && s.writes[j].PlanDecision? ==>
      exists p :: FromPlan(s, p, s.writes[j].evaluation, j)
  }

  lemma DecisionsFromPlansKept(s: State, r: State)
    requires OneHistory(s) && DecisionsFromPlans(s) && Advances(s, r) && Grows(s, r)
    ensures DecisionsFromPlans(r)
  {
    hide Legal, After, Follows;
    forall j | 0 <= j < |r.writes| && r.writes[j].PlanDecision?
      ensures exists p :: FromPlan(r, p, r.writes[j].evaluation, j)
    {
      assert exists p :: FromPlan(s, p, r.writes[j].evaluation, j);
      var p :| FromPlan(s, p, r.writes[j].evaluation, j);
      assert FromPlan(r, p, r.writes[j].evaluation, j);
    }
  }

  /** Every baseline was captured of the object that its action names. */
  ghost predicate BaselinesAreOfTheTarget(s: State) {
    forall j :: 0 <= j < |s.writes| && j < |s.actions| && s.writes[j].DispatchRecord? && s.writes[j].baseline.Some? ==>
      OfTheTarget(s, s.actions[j], s.writes[j].baseline.value)
  }

  lemma BaselinesAreOfTheTargetKept(s: State, r: State)
    requires OneHistory(s) && BaselinesAreOfTheTarget(s) && Advances(s, r) && Grows(s, r)
    ensures BaselinesAreOfTheTarget(r)
  {
    hide Legal, After, Follows, TargetUID;
    forall j | 0 <= j < |r.writes| && j < |r.actions| && r.writes[j].DispatchRecord? && r.writes[j].baseline.Some?
      ensures OfTheTarget(r, r.actions[j], r.writes[j].baseline.value)
    {
      var baseline := r.writes[j].baseline.value;
      assert OfTheTarget(s, r.actions[j], baseline);
      var i :| 0 <= i < |s.deployments| && s.deployments[i].uid == baseline.targetUID;
      assert r.deployments[i].uid == baseline.targetUID;
    }
  }

  /** With a notifier, an escalation lands only right on top of the record of the attempt that was answered. */
  ghost predicate EscalationsFollowNotices(s: State) {
    s.hasNotifier ==> forall j :: 0 <= j < |s.writes| && s.writes[j].Escalation? ==>
      s.writes[j].notified && j > 0 && s.writes[j - 1] == NotifyAttempt(s.writes[j].now)
  }

  lemma EscalationsFollowNoticesKept(s: State, r: State)
    requires OneHistory(s) && EscalationsFollowNotices(s) && Advances(s, r) && r.hasNotifier == s.hasNotifier
    ensures EscalationsFollowNotices(r)
  {
    hide Legal, After, Follows, FromPlan;
  }

  predicate SucceededByKubernetes(a: AgentAction) {
    a.status.execution.Some? && a.status.execution.value.phase == Some(ExecutionSucceeded)
    && a.status.execution.value.executor.KubernetesExecutorName?
  }

  /** A success that the Kubernetes backend reported is about an identity that the pod template carried. */
  ghost predicate SuccessesAreReal(s: State) {
    forall v :: 0 <= v < |s.actions| && SucceededByKubernetes(s.actions[v]) ==>
      Carried(s, s.actions[v].status.execution.value.executionID)
  }

  lemma SuccessIsKeptOrReported(a: AgentAction, w: Write)
    requires Legal(a, w) && SucceededByKubernetes(After(a, w))
    ensures var b := After(a, w);
            (w.SuccessRecord? && w.result.executor.KubernetesExecutorName?
             && (w.result.executionID != NoIdentity ==> b.status.execution.value.executionID == w.result.executionID))
            || (SucceededByKubernetes(a)
                && b.status.execution.value.executionID == a.status.execution.value.executionID)
  {
  }

  lemma SuccessesAreRealKept(s: State, r: State)
    requires SuccessesAreReal(s) && Advances(s, r) && Grows(s, r)
    ensures SuccessesAreReal(r)
  {
    hide Legal, After, FromPlan, RecordsDecision;
    forall v | 0 <= v < |r.actions| && SucceededByKubernetes(r.actions[v])
      ensures Carried(r, r.actions[v].status.execution.value.executionID)
    {
      if v < |s.actions| {
        assert Carried(s, r.actions[v].status.execution.value.executionID);
      } else if w :| Appends(s, r, w) {
        var a := s.actions[|s.actions| - 1];
        SuccessIsKeptOrReported(a, w);
        if SucceededByKubernetes(a) {
          assert Carried(s, a.status.execution.value.executionID);
        }
      }
    }
  }

  // --------------------------------------------------------------------- the plan

  ghost predicate PlansBacked(s: State) {
    forall p :: 0 <= p < |s.plans| ==> PlanBacked(s, s.plans[p])
  }

  lemma PlanBackedStays(s: State, r: State, plan: Plan)
    requires PlanBacked(s, plan) && Grows(s, r)
    ensures PlanBacked(r, plan)
  {
    if Decisive(plan.phase) {
      var v :| RecordsDecision(s, v, DecisionOf(plan.phase));
      assert RecordsDecision(r, v, DecisionOf(plan.phase));
    }
  }

  ghost predicate PlansAdvance(s: State, r: State) {
    r.plans == s.plans
    || exists plan :: PlanAppended(s, r, plan)
  }

  ghost predicate PlanAppended(s: State, r: State, plan: Plan) {
    s.plans != [] && r.plans == s.plans + [plan]
    && (plan.phase == s.plans[|s.plans| - 1].phase || PlanBacked(s, plan))
  }

  lemma EffectAdvancesPlans(s: State, task: Task, i: Intent)
    requires IntentOk(s, task, i) && Accepted(s, i)
    ensures PlansAdvance(s, Effect(s, i))
  {
    hide Legal, After, TaskOk, Patched;
    if i.StorePlan? {
      assert PlanAppended(s, Effect(s, i), i.plan);
    }
  }

  lemma OutsideAdvancesPlans(s: State, o: Outside)
    ensures PlansAdvance(s, OutsideStep(s, o))
  {
    if o.UserEditsPlan? && s.plans != [] {
      assert PlanAppended(s, OutsideStep(s, o), Plan(o.targetUIDAnnotation, o.planSpec, s.plans[|s.plans| - 1].phase));
    }
  }

  lemma PlansBackedKept(s: State, r: State)
    requires PlansBacked(s) && PlansAdvance(s, r) && Grows(s, r)
    ensures PlansBacked(r)
  {
    forall p | 0 <= p < |r.plans|
      ensures PlanBacked(r, r.plans[p])
    {
      if p < |s.plans| {
        PlanBackedStays(s, r, s.plans[p]);
      } else {
        var plan :| PlanAppended(s, r, plan);
        if plan.phase == s.plans[|s.plans| - 1].phase {
          assert PlanBacked(s, s.plans[|s.plans| - 1]);
        }
        PlanBackedStays(s, r, plan);
      }
    }
  }

  // -------------------------------------------------------------------- the passes

  ghost predicate TasksOk(s: State) {
    forall t :: 0 <= t < |s.tasks| ==> TaskOk(s, s.tasks[t])
  }

  /** Each recorded dispatch is called by the one pass that recorded it, once. */
  ghost predicate CalledOnce(s: State) {
    && (forall c :: 0 <= c < |s.calls| ==> IsDispatch(s, s.calls[c]))
    && (forall c, d :: 0 <= c < d < |s.calls| ==> s.calls[c] != s.calls[d])
    && (forall t :: 0 <= t < |s.tasks| && s.tasks[t].Recorded? ==> s.tasks[t].w !in s.calls)
    && (forall t, u :: 0 <= t < u < |s.tasks| && s.tasks[t].Recorded? && s.tasks[u].Recorded? ==>
          s.tasks[t].w != s.tasks[u].w)
  }

  ghost predicate DeploymentsKept(s: State) {
    s.deployments != []
    && (s.foreign == 0 ==> AnnotationsKept(s))
  }

  function Live(s: State): Deployment
    requires s.deployments != []
  {
    s.deployments[|s.deployments| - 1]
  }

  /** The accounts of template changes, while only the backend writes the two annotations. */
  ghost predicate AnnotationsKept(s: State)
    requires s.deployments != []
  {
    && (Marked(s) ==> Live(s).restartedBy == RestartedByFluxSeer)
    && (Live(s).executionID != NoIdentity ==> Live(s).restartedBy == RestartedByFluxSeer)
    && forall id :: id != NoIdentity ==>
         s.changes[id] <= s.departures[id] + (if Live(s).executionID == id then 1 else 0)
  }

  lemma PatchKeepsAnnotations(s: State, patch: MergePatch)
    requires DeploymentsKept(s) && s.foreign == 0 && patch.executionID != NoIdentity
    requires !patch.setsRestartedBy ==> Marked(s)
    ensures AnnotationsKept(PatchLanded(s, patch))
  {
  }

  lemma EffectKeepsDeployments(s: State, task: Task, i: Intent)
    requires DeploymentsKept(s) && IntentOk(s, task, i) && Accepted(s, i)
    ensures DeploymentsKept(Effect(s, i))
  {
    hide Legal, After, TaskOk, StoreOk, PlanBacked;
    if i.Patch? && i.lands && s.foreign == 0 {
      PatchKeepsAnnotations(s, i.patch);
    }
  }

  lemma OutsideKeepsDeployments(s: State, o: Outside)
    requires DeploymentsKept(s)
    ensures DeploymentsKept(OutsideStep(s, o))
  {
    var r := OutsideStep(s, o);
    if o.ClusterEdits? && r.foreign == 0 {
      assert Live(r) == o.deployment;
      if Marked(r) {
        var i :| 0 <= i < |r.deployments| && r.deployments[i].restartedBy == RestartedByFluxSeer;
        assert i < |s.deployments| ==> s.deployments[i].restartedBy == RestartedByFluxSeer;
        assert Live(s).restartedBy == RestartedByFluxSeer;
      }
    }
  }

  lemma {:induction false} StoredAnchors(s: State, v: nat)
    requires OneHistory(s) && v < |s.actions|
    ensures s.actions[v].status.updatedAt % SECOND == 0
  {
    HistoriesAreLines(HistoryOf(s));
    AnchorsAreWholeSeconds(AllFacts(s.actions), s.writes, v);
  }

  lemma NextTaskOk(s: State, task: Task, i: Intent)
    requires OneHistory(s) && TaskOk(s, task) && IntentOk(s, task, i) && Accepted(s, i)
    ensures TaskOk(Effect(s, i), NextTask(task, i))
  {
    hide Legal, After, PlanBacked, Follows, MayEvaluate, Records, DeadlinePassed, SpecDigest;
    var r := Effect(s, i);
    match i
    case Store(v, w, next) =>
      StoredAnchors(s, v);
      LandedTaskOk(s, v, w, next);
    case Make(action, next) => TaskOkStays(s.(actions := [action]), r, next);
    case Call(w, next) => TaskOkStays(s, r, next);
    case _ =>
  }

  lemma GotoKeepsTasks(s: State, r: State, t: nat, next: Task)
    requires TasksOk(s) && Grows(s, r) && r.tasks == s.tasks && t < |s.tasks| && TaskOk(r, next)
    ensures TasksOk(Goto(r, t, next))
  {
    hide TaskOk;
    var g := Goto(r, t, next);
    GrowsAndStays(r, g);
    forall u | 0 <= u < |g.tasks|
      ensures TaskOk(g, g.tasks[u])
    {
      if u == t {
        TaskOkStays(r, g, next);
      } else {
        TaskOkStays(s, r, s.tasks[u]);
        TaskOkStays(r, g, s.tasks[u]);
      }
    }
  }

  /** Only the passes differ. */
  lemma GrowsAndStays(s: State, r: State)
    requires r == s.(tasks := r.tasks)
    ensures Grows(s, r)
  {
  }

  lemma OutsideKeepsTasks(s: State, o: Outside)
    requires TasksOk(s)
    ensures TasksOk(OutsideStep(s, o))
  {
    var r := OutsideStep(s, o);
    OutsideGrows(s, o);
    forall u | 0 <= u < |r.tasks|
      ensures TaskOk(r, r.tasks[u])
    {
      if u < |s.tasks| {
        TaskOkStays(s, r, s.tasks[u]);
      }
    }
  }

  lemma IsDispatchStays(s: State, r: State, w: int)
    requires IsDispatch(s, w) && Grows(s, r)
    ensures IsDispatch(r, w)
  {
  }

  lemma RecordedIsDispatch(s: State, task: Task)
    requires TaskOk(s, task) && task.Recorded?
    ensures IsDispatch(s, task.w)
  {
  }

  /** A pass becomes the caller of a dispatch only by landing that very write, and calls only that. */
  lemma CallsAreTheCallers(s: State, task: Task, i: Intent)
    requires OneHistory(s) && IntentOk(s, task, i) && Accepted(s, i)
    ensures var r := Effect(s, i);
            var next := NextTask(task, i);
            (next.Recorded? && next != task ==> next.w == |s.writes| && r.calls == s.calls)
            && (r.calls == s.calls
                || (task.Recorded? && r.calls == s.calls + [task.w] && !next.Recorded?))
  {
    hide Legal, After, TaskOk, PlanBacked, FromPlan, Follows;
  }

  lemma GotoKeepsCalls(s: State, r: State, t: nat, next: Task)
    requires TasksOk(s) && CalledOnce(s) && Grows(s, r) && r.tasks == s.tasks && t < |s.tasks|
    requires next.Recorded? && next != s.tasks[t] ==> next.w == |s.writes| && r.calls == s.calls
    requires || r.calls == s.calls
             || (s.tasks[t].Recorded? && r.calls == s.calls + [s.tasks[t].w] && !next.Recorded?)
    ensures CalledOnce(Goto(r, t, next))
  {
    hide TaskOk, Grows;
    var g := Goto(r, t, next);
    forall u | 0 <= u < |s.tasks| && s.tasks[u].Recorded?
      ensures IsDispatch(s, s.tasks[u].w)
    {
      assert TaskOk(s, s.tasks[u]);
      RecordedIsDispatch(s, s.tasks[u]);
    }
    forall c | 0 <= c < |g.calls|
      ensures IsDispatch(g, g.calls[c])
    {
      IsDispatchStays(s, r, if c < |s.calls| then s.calls[c] else s.tasks[t].w);
    }
  }

  // ------------------------------------------------------------------ every event

  ghost predicate Inv(s: State) {
    OneHistory(s) && ApproversNamed(s) && DecisionsFromPlans(s) && BaselinesAreOfTheTarget(s)
    && EscalationsFollowNotices(s) && SuccessesAreReal(s) && PlansBacked(s)
    && TasksOk(s) && CalledOnce(s) && DeploymentsKept(s)
  }

  ghost predicate Moved(s: State, r: State) {
    Advances(s, r) && PlansAdvance(s, r) && Grows(s, r) && r.hasNotifier == s.hasNotifier
  }

  ghost predicate PassesKept(s: State) {
    TasksOk(s) && CalledOnce(s) && DeploymentsKept(s)
  }

  /** Only the passes differ, and what is under way makes no difference to the stores. */
  lemma GotoMoves(s: State, r: State, t: nat, next: Task)
    requires Moved(s, r) && t < |r.tasks|
    ensures Moved(s, Goto(r, t, next))
    ensures DeploymentsKept(r) ==> DeploymentsKept(Goto(r, t, next))
  {
    hide Legal, After, PlanBacked, LandsOk;
    var g := Goto(r, t, next);
    if w :| Appends(s, r, w) {
      assert Appends(s, g, w);
    }
    if plan :| PlanAppended(s, r, plan) {
      assert PlanAppended(s, g, plan);
    }
  }

  lemma PassStep(s: State, t: nat, m: Move)
    requires OneHistory(s) && PassesKept(s) && t < |s.tasks|
    ensures var r := Step(s, OfPass(t, m));
            Moved(s, r) && PassesKept(r)
  {
    hide Moved, TaskOk, IntentOk, Effect, IntentOf, OneHistory, CalledOnce, DeploymentsKept, Accepted;
    var task := s.tasks[t];
    MovedNowhere(s);
    IdleIsOk(s);
    if m.Crash? {
      GotoMoves(s, s, t, Idle);
      GotoKeepsTasks(s, s, t, Idle);
      GotoKeepsCalls(s, s, t, Idle);
    } else {
      DeploymentsExist(s);
      assert TaskOk(s, task);
      EveryIntentOk(s, task, m);
      PassPerforms(s, t, IntentOf(s, task, m));
    }
  }

  lemma MovedNowhere(s: State)
    ensures Moved(s, s) && Grows(s, s)
  {
  }

  lemma DeploymentsExist(s: State)
    requires DeploymentsKept(s)
    ensures s.deployments != []
  {
  }

  lemma IdleIsOk(s: State)
    ensures TaskOk(s, Idle)
  {
  }

  lemma PassPerforms(s: State, t: nat, i: Intent)
    requires OneHistory(s) && PassesKept(s) && t < |s.tasks| && IntentOk(s, s.tasks[t], i)
    ensures var r := Perform(s, t, i);
            Moved(s, r) && PassesKept(r)
  {
    hide TaskOk, IntentOk, Effect, OneHistory, CalledOnce, DeploymentsKept, Accepted, Grows, Advances, PlansAdvance;
    var task := s.tasks[t];
    if Accepted(s, i) {
      var r, next := Effect(s, i), NextTask(task, i);
      EffectAdvances(s, task, i);
      EffectAdvancesPlans(s, task, i);
      EffectGrows(s, i);
      EffectKeepsDeployments(s, task, i);
      assert TaskOk(s, task);
      NextTaskOk(s, task, i);
      CallsAreTheCallers(s, task, i);
      GotoMoves(s, r, t, next);
      GotoKeepsTasks(s, r, t, next);
      GotoKeepsCalls(s, r, t, next);
    } else {
      MovedNowhere(s);
      IdleIsOk(s);
      GotoMoves(s, s, t, Idle);
      GotoKeepsTasks(s, s, t, Idle);
      GotoKeepsCalls(s, s, t, Idle);
    }
  }

  lemma OutsideKeepsCalls(s: State, o: Outside)
    requires TasksOk(s) && CalledOnce(s)
    ensures CalledOnce(OutsideStep(s, o))
  {
    hide TaskOk, Legal, After;
    var r := OutsideStep(s, o);
    OutsideGrows(s, o);
    forall c | 0 <= c < |r.calls|
      ensures IsDispatch(r, r.calls[c])
    {
      IsDispatchStays(s, r, s.calls[c]);
    }
  }

  lemma OneStep(s: State, e: Event)
    requires OneHistory(s) && PassesKept(s)
    ensures Moved(s, Step(s, e)) && PassesKept(Step(s, e))
  {
    hide OneHistory, TasksOk, CalledOnce, DeploymentsKept, OutsideStep, Perform, Goto, IntentOf, Advances, PlansAdvance, Grows;
    match e
    case FromOutside(o) =>
      OutsideAdvances(s, o);
      OutsideAdvancesPlans(s, o);
      OutsideGrows(s, o);
      OutsideKeepsTasks(s, o);
      OutsideKeepsCalls(s, o);
      OutsideKeepsDeployments(s, o);
    case OfPass(t, m) =>
      if t < |s.tasks| {
        PassStep(s, t, m);
      } else {
        MovedNowhere(s);
      }
  }

  lemma StepKeepsInv(s: State, e: Event)
    requires Inv(s)
    ensures Inv(Step(s, e))
  {
    hide OneHistory, ApproversNamed, DecisionsFromPlans, BaselinesAreOfTheTarget, EscalationsFollowNotices, SuccessesAreReal, PlansBacked, TasksOk, CalledOnce,
      DeploymentsKept, Step, Advances, PlansAdvance, Grows;
    var r := Step(s, e);
    OneStep(s, e);
    OneHistoryKept(s, r);
    ApproversNamedKept(s, r);
    BaselinesAreOfTheTargetKept(s, r);
    DecisionsFromPlansKept(s, r);
    EscalationsFollowNoticesKept(s, r);
    SuccessesAreRealKept(s, r);
    PlansBackedKept(s, r);
  }

  lemma InitialInv(s: State)
    requires Initial(s)
    ensures Inv(s)
  {
    assert Live(s) == s.deployments[0];
  }

  /** Every state that any run reaches meets the invariant. */
  lemma {:induction false} RunInv(s: State, es: seq<Event>)
    requires Initial(s)
    ensures Inv(Run(s, es))
  {
    hide Inv, Step, Initial;
    if es == [] {
      InitialInv(s);
    } else {
      RunInv(s, es[..|es| - 1]);
      StepKeepsInv(Run(s, es[..|es| - 1]), es[|es| - 1]);
    }
  }
}
