/**
  The deletion of finished actions. A deletion carries no version, so it hits whatever is stored: what a pass read as
  finished may be decided, dispatched and under verification again when the deletion arrives.
 */
module DeletionTheorems {
  import opened Wrappers
  import opened AgentActions
  import opened ActionHistory
  import opened Executor
  import opened ApprovalProtocol
  import opened ApprovalProtocolProofs
  import opened ApprovalInvariant
  import opened ApprovalTheorems
  import opened HistoryTheorems
  import opened RedecisionRuns
  import Guardrails
  import Text

  predicate Ended(phase: Phase) {
    phase.Succeeded? || phase.Failed? || phase.Rejected?
  }

  /** A pass deletes only what it read as ended, expired, not retained and not under verification. */
  lemma DeletesOnlyWhatItSawFinished(s: State, v: nat, m: Move)
    requires v < |s.actions| && ActionIntent(s, v, s.actions[v], m).Erase?
    ensures Ended(s.actions[v].status.phase) && !UnderVerification(s.actions[v])
    ensures !s.actions[v].retained && m.DeleteExpired? && TTLExpired(s.actions[v], m.now)
  {
  }

  // --------------------------------------------------------- what must have come between

  /** An outcome that is written over a version that had already ended. */
  predicate LateOutcome(a: AgentAction, w: Write) {
    Ended(a.status.phase) && (w.SuccessRecord? || w.UnknownRecord?)
  }

  lemma EndedStaysEnded(a: AgentAction, w: Write)
    requires Legal(a, w) && Ended(a.status.phase) && !w.PlanDecision? && !LateOutcome(a, w)
    ensures Ended(After(a, w).status.phase)
  {
    hide Moves;
    EveryWriteMoves(a, w);
    EndedMoves(FactsOf(a), w, FactsOf(After(a, w)));
  }

  lemma EndedMoves(x: Facts, w: Write, y: Facts)
    requires Moves(x, w, y) && Ended(x.phase) && !w.PlanDecision? && !w.SuccessRecord? && !w.UnknownRecord?
    ensures Ended(y.phase)
  {
  }

  lemma OnlySuccessVerifies(a: AgentAction, w: Write)
    requires Legal(a, w) && !UnderVerification(a) && UnderVerification(After(a, w))
    ensures w.SuccessRecord?
  {
    hide EndOutcome, Route, NeedsFreshPending;
  }

  /** Up to version n nothing was decided, and no outcome came late. */
  lemma {:induction false} NothingReopened(h: History, v: nat, n: nat)
    requires Serial(h) && v <= n <= |h.writes|
    requires Ended(h.versions[v].status.phase) && !UnderVerification(h.versions[v])
    requires forall k :: v <= k < n ==> !h.writes[k].PlanDecision? && !LateOutcome(h.versions[k], h.writes[k])
    ensures Ended(h.versions[n].status.phase) && !UnderVerification(h.versions[n])
  {
    hide Legal, After, UnderVerification;
    if v < n {
      NothingReopened(h, v, n - 1);
      var a, w := h.versions[n - 1], h.writes[n - 1];
      assert Follows(a, w, h.versions[n]);
      EndedStaysEnded(a, w);
      if UnderVerification(h.versions[n]) {
        OnlySuccessVerifies(a, w);
      }
    }
  }

  /** Write k came after version v was read, and decides the action again or brings an outcome late. */
  predicate Reopens(s: State, v: nat, k: nat) {
    v <= k < |s.writes| && k < |s.actions| && (s.writes[k].PlanDecision? || LateOutcome(s.actions[k], s.writes[k]))
  }

  /**
    In every run, a deletion hits an action under verification only if, after the version that its pass read, the
    action was decided again or an outcome was written over an ended version.
   */
  lemma DeletedUnderVerificationOnlyAfter(s: State, es: seq<Event>, t: nat, m: Move)
    requires Initial(s) && t < |Run(s, es).tasks| && Run(s, es).tasks[t].Observed?
    requires IntentOf(Run(s, es), Run(s, es).tasks[t], m).Erase?
    requires var r := Run(s, es);
             r.actions != [] && UnderVerification(r.actions[|r.actions| - 1])
    ensures exists k :: Reopens(Run(s, es), Run(s, es).tasks[t].v, k)
  {
    hide Initial, Run, ActionIntent, Legal, After, UnderVerification, TaskOk;
    RunInv(s, es);
    var r := Run(s, es);
    var v, h := r.tasks[t].v, HistoryOf(r);
    assert v < |r.actions|;
    DeletesOnlyWhatItSawFinished(r, v, m);
    SerialLengths(h);
    if forall k: nat :: !Reopens(r, v, k) {
      forall k | v <= k < |h.writes|
        ensures !h.writes[k].PlanDecision? && !LateOutcome(h.versions[k], h.writes[k])
      {
        assert !Reopens(r, v, k);
      }
      NothingReopened(h, v, |h.writes|);
    }
  }

  // -------------------------------------------------------------- exactly when it is verified

  lemma VerificationMoves(a: AgentAction, w: Write)
    requires Legal(a, w) && (UnderVerification(a) ==> HasBaseline(a.status))
    ensures UnderVerification(After(a, w)) <==>
            (w.SuccessRecord? && HasBaseline(a.status)) || (UnderVerification(a) && !w.VerificationEnd?)
    ensures UnderVerification(After(a, w)) ==> HasBaseline(After(a, w).status)
  {
    hide EndOutcome, NeedsFreshPending, IsApproved, FinishedAt, RecordedStart;
  }

  /** Write k put the action under verification, and no write before version n ended that. */
  predicate Opened(h: History, k: int, n: int) {
    0 <= k < n <= |h.writes| && k < |h.versions| && h.writes[k].SuccessRecord? && HasBaseline(h.versions[k].status)
    && forall j :: k < j < n ==> !h.writes[j].VerificationEnd?
  }

  /** A version is under verification exactly when some success over a baseline came before it and no verdict since. */
  lemma {:induction false} UnderVerificationExactlyWhen(h: History, n: nat)
    requires Serial(h) && n <= |h.writes|
    ensures UnderVerification(h.versions[n]) <==> exists k :: Opened(h, k, n)
    ensures UnderVerification(h.versions[n]) ==> HasBaseline(h.versions[n].status)
  {
    hide Legal, After, UnderVerification, HasBaseline;
    if n == 0 {
      NothingVerifiedYet(h.versions[0]);
    } else {
      var m := n - 1;
      var w := h.writes[m];
      UnderVerificationExactlyWhen(h, m);
      assert Follows(h.versions[m], w, h.versions[n]);
      VerificationMoves(h.versions[m], w);
      if k :| Opened(h, k, m) {
        assert !w.VerificationEnd? ==> Opened(h, k, n);
      }
      if w.SuccessRecord? && HasBaseline(h.versions[m].status) {
        assert Opened(h, m, n);
      }
      if k :| Opened(h, k, n) {
        assert k < m ==> Opened(h, k, m);
      }
    }
  }

  lemma NothingVerifiedYet(a: AgentAction)
    requires a.status == EMPTY_STATUS
    ensures !UnderVerification(a)
  {
  }

  // ------------------------------------------------------------------ that it can happen

  lemma ExecuteIsRefused(s: State, ts: seq<Task>, w: nat) returns (reason: FailureReason)
    requires w < |s.actions| && s.tasks == ts + [Recorded(w)] && s.actions[w].status.approval.Some?
    requires BackendFor(s.actions[w].spec.actionType) == KubernetesBackend
    ensures var r := DispatchRequest(s.actions[w]);
            Step(s, OfPass(|ts|, CallExecute(None, SOME_RESULT, None, 0)))
            == s.(tasks := ts + [Answered(w, FailedResult(r, reason, OutcomeFailed, 0), Some(reason))],
                  calls := s.calls + [w])
  {
    hide PlanIntent, ActionIntent, OutsideStep, BackendFor, ValidRestart, Identity, SpecDigest, TargetUID;
    var r := DispatchRequest(s.actions[w]);
    var m := CallExecute(None, SOME_RESULT, None, 0);
    reason := ExecuteOn(None, r).reason;
    var next := Answered(w, FailedResult(r, reason, OutcomeFailed, 0), Some(reason));
    assert IntentOf(s, Recorded(w), m) == Call(w, next);
    assert s.tasks[|ts| := next] == ts + [next];
  }

  lemma ActionIsReloaded(s: State, ts: seq<Task>, w: nat, result: Result, error: Option<FailureReason>, v: nat)
    requires w < |s.actions| && v < |s.actions| && s.tasks == ts + [Answered(w, result, error)]
    requires s.actions[w].status.approval.Some?
    ensures Step(s, OfPass(|ts|, ReloadAction(v))) == s.(tasks := ts + [Reloaded(w, result, error, v)])
  {
    hide PlanIntent, ActionIntent, OutsideStep, DispatchRequest, ExecuteOn;
    assert IntentOf(s, Answered(w, result, error), ReloadAction(v)) == Become(Reloaded(w, result, error, v));
    assert s.tasks[|ts| := Reloaded(w, result, error, v)] == ts + [Reloaded(w, result, error, v)];
  }

  lemma FailureIsWritten(s: State, ts: seq<Task>, w: nat, result: Result, reason: FailureReason, v: nat)
    requires w < |s.actions| == v + 1 && !s.deleted && s.tasks == ts + [Reloaded(w, result, Some(reason), v)]
    requires s.actions[w].status.approval.Some? && result.outcome != OutcomeUnknown
    ensures Step(s, OfPass(|ts|, RecordOutcome(0))) == Landed(s.(tasks := ts + [Idle]), v, FailureRecord(reason, 0))
  {
    hide PlanIntent, ActionIntent, OutsideStep, DispatchRequest, ExecuteOn, After;
    assert IntentOf(s, Reloaded(w, result, Some(reason), v), RecordOutcome(0)) == Store(v, FailureRecord(reason, 0), Idle);
    assert s.tasks[|ts| := Idle] == ts + [Idle];
  }

  lemma SuccessIsWritten(s: State, ts: seq<Task>, w: nat, r: Request, result: Result, v: nat)
    requires w < |s.actions| == v + 1 && !s.deleted && s.tasks == ts + [Reloaded(w, result, None, v)]
    requires Legal(s.actions[v], SuccessRecord(r, result, 0))
    requires s.actions[w].status.approval.Some? && r == DispatchRequest(s.actions[w])
    ensures Step(s, OfPass(|ts|, RecordOutcome(0))) == Landed(s.(tasks := ts + [Idle]), v, SuccessRecord(r, result, 0))
  {
    hide PlanIntent, ActionIntent, OutsideStep, ExecuteOn, After, DispatchRequest;
    assert IntentOf(s, Reloaded(w, result, None, v), RecordOutcome(0)) == Store(v, SuccessRecord(r, result, 0), Idle);
    assert s.tasks[|ts| := Idle] == ts + [Idle];
  }

  lemma PatchIsDue(s: State, ts: seq<Task>, w: nat) returns (patch: MergePatch)
    requires w < |s.actions| && s.tasks == ts + [Recorded(w)] && s.actions[w].status.approval.Some? && s.deployments != []
    requires BackendFor(s.actions[w].spec.actionType) == KubernetesBackend
    requires var r := DispatchRequest(s.actions[w]);
             ValidRestart(r) && s.deployments[0].uid == r.targetUID && s.deployments[0].executionID != r.executionID
    ensures Step(s, OfPass(|ts|, CallExecute(Some(0), SOME_RESULT, None, 0)))
         == s.(tasks := ts + [Patching(w, patch)], calls := s.calls + [w])
    ensures patch.executionID == Identity(s.actions[w])
  {
    hide PlanIntent, ActionIntent, OutsideStep, BackendFor, ValidRestart, Identity, SpecDigest, TargetUID;
    var r := DispatchRequest(s.actions[w]);
    patch := PatchFor(s.deployments[0], r);
    assert IntentOf(s, Recorded(w), CallExecute(Some(0), SOME_RESULT, None, 0)) == Call(w, Patching(w, patch));
    assert s.tasks[|ts| := Patching(w, patch)] == ts + [Patching(w, patch)];
  }

  lemma PatchIsApplied(s: State, ts: seq<Task>, w: nat, patch: MergePatch)
    requires w < |s.actions| && s.tasks == ts + [Patching(w, patch)] && s.actions[w].status.approval.Some?
    ensures var result := SucceededResult(DispatchRequest(s.actions[w]), 0);
            var r := Step(s, OfPass(|ts|, SendPatch(Applied, 0)));
            r.tasks == ts + [Answered(w, result, None)] && r.actions == s.actions && r.deleted == s.deleted
  {
    hide PlanIntent, ActionIntent, OutsideStep, DispatchRequest, ExecuteOn, Patched;
    var next := Answered(w, SucceededResult(DispatchRequest(s.actions[w]), 0), None);
    assert IntentOf(s, Patching(w, patch), SendPatch(Applied, 0)) == Patch(patch, true, next);
    assert s.tasks[|ts| := next] == ts + [next];
  }

  lemma ActionIsDeleted(s: State, t: nat, v: nat, now: Time)
    requires t < |s.tasks| && v < |s.actions| && s.tasks[t] == Observed(v) && Route(s.actions[v]) == TerminalTTL
    requires TTLExpired(s.actions[v], now)
    ensures Step(s, OfPass(t, DeleteExpired(now))) == s.(tasks := s.tasks[t := Idle], deleted := true)
  {
    hide PlanIntent, BackendIntent, OutsideStep, Route, TTLExpired;
    assert IntentOf(s, Observed(v), DeleteExpired(now)) == Erase;
  }

  // ------------------------------------------------------------------------- the run

  /** What a failed dispatch leaves: an ended action that the plan can decide again, and that expires at some time. */
  lemma FailedIsOpen(s: State, e: Guardrails.Evaluation, a: AgentAction, reason: FailureReason)
    returns (expiry: Time)
    requires s.plans != [] && Again(s, e, a) && a.spec.ttlSeconds != 0 && !a.retained
    ensures var b := After(a, FailureRecord(reason, 0));
            Again(s, e, b) && Route(b) == TerminalTTL && TTLExpired(b, expiry)
  {
    hide FirstSpec, AppliedUID;
    var b := After(a, FailureRecord(reason, 0));
    expiry := b.status.finishedAt.value + b.spec.ttlSeconds * SECOND + 1;
  }

  /** A success puts any version with a baseline under verification, also one that has ended, without a decision. */
  lemma SuccessVerifies(a: AgentAction, request: Request, result: Result, now: Time)
    requires request.executionID != NoIdentity && HasBaseline(a.status)
    ensures var w := SuccessRecord(request, result, now);
            Legal(a, w) && UnderVerification(After(a, w)) && (Ended(a.status.phase) <==> LateOutcome(a, w))
  {
    hide FinishedAt;
  }

  /** A target that a Kubernetes request can be sent to, and that no execution has touched. */
  predicate Restartable(s: State, e: Guardrails.Evaluation) {
    Runnable(s, e) && BackendFor(FirstSpec(s, e).actionType) == KubernetesBackend && FirstSpec(s, e).ttlSeconds != 0
    && s.deployments[0].executionID == NoIdentity
  }

  lemma RequestIsValid(s: State, e: Guardrails.Evaluation, b: AgentAction)
    requires Restartable(s, e) && b.status.approval.Some?
    requires b.spec == FirstSpec(s, e) && b.targetUIDAnnotation == AppliedUID(s.plans[0], "")
    ensures var r := DispatchRequest(b);
            ValidRestart(r) && s.deployments[0].uid == r.targetUID && s.deployments[0].executionID != r.executionID
            && CapturedFor(s, b).Some?
  {
    hide MayEvaluate, Text.TrimSpace, Route, SpecDigest, FirstSpec;
  }

  /** What the records of one dispatch leave. */
  lemma TurnedAction(s: State, e: Guardrails.Evaluation, v: nat)
    requires Restartable(s, e) && v + 1 == |s.actions| && Again(s, e, s.actions[v]) && !s.actions[v].retained
    ensures var r := Turned(s, e, v);
            |r.actions| == v + 3 && s.actions <= r.actions && r == s.(actions := r.actions, writes := r.writes)
            && r.actions[v + 1].status.approval.Some? && r.actions[v + 1].spec == FirstSpec(s, e)
            && r.actions[v + 1].targetUIDAnnotation == AppliedUID(s.plans[0], "")
            && r.actions[v + 2].spec == FirstSpec(s, e) && Again(s, e, r.actions[v + 2])
            && HasBaseline(r.actions[v + 2].status) && !r.actions[v + 2].retained
  {
    hide MayEvaluate, BackendFor, Text.TrimSpace, DecisionStatus, DispatchRequest, Route, FirstSpec, AppliedUID,
         CapturedFor, Unverified;
    DecisionReopens(s.actions[v], e, 0);
    var s1 := Landed(s, v, PlanDecision(e, 0));
    var b := s1.actions[v + 1];
    RequestIsValid(s, e, b);
    DispatchStaysOpen(s, e, b, CapturedFor(s, b));
  }

  lemma Then(s: State, es: seq<Event>, e: Event)
    ensures Run(s, es + [e]) == Step(Run(s, es), e)
  {
    hide Step;
    RunJoins(s, es, [e]);
    RunOne(Run(s, es), e);
  }

  /** The backend finds no target, and the action ends as failed. */
  lemma FirstFails(s: State, e: Guardrails.Evaluation) returns (es: seq<Event>, expiry: Time)
    requires Initial(s) && Restartable(s, e)
    ensures var r := Run(s, es);
            r == s.(tasks := r.tasks, actions := r.actions, writes := r.writes, calls := r.calls)
            && r.actions != [] && Again(s, e, r.actions[|r.actions| - 1]) && !r.actions[|r.actions| - 1].retained
            && Route(r.actions[|r.actions| - 1]) == TerminalTTL && TTLExpired(r.actions[|r.actions| - 1], expiry)
  {
    hide Initial, Step, Run, Runnable, RecordingEvents, Turned, Again, FirstSpec, Route, TTLExpired, After, DispatchRequest,
         FailedResult, BackendFor, HasBaseline;
    HasPlan(s, e);
    Starts(s, e);
    ActionIsRecorded(s, e);
    SavedIsOpen(s, e);
    var saved := Saved(s, e);
    StillRestartable(s, saved, e);
    TurnedAction(saved, e, 0);
    var ts := [PlanDecided(0, e, 1)];
    var s1 := Turned(saved, e, 0).(tasks := ts + [Recorded(1)]);
    es := RecordingEvents(s, e);
    assert RecordedTasks([], e, 0) == ts + [Recorded(1)];
    assert Run(s, es) == s1;
    var reason := ExecuteIsRefused(s1, ts, 1);
    Then(s, es, OfPass(1, CallExecute(None, SOME_RESULT, None, 0)));
    es := es + [OfPass(1, CallExecute(None, SOME_RESULT, None, 0))];
    var result := FailedResult(DispatchRequest(s1.actions[1]), reason, OutcomeFailed, 0);
    FailedOutcome(DispatchRequest(s1.actions[1]), reason);
    var s2 := s1.(tasks := ts + [Answered(1, result, Some(reason))], calls := s1.calls + [1]);
    ActionIsReloaded(s2, ts, 1, result, Some(reason), 2);
    Then(s, es, OfPass(1, ReloadAction(2)));
    es := es + [OfPass(1, ReloadAction(2))];
    var s3 := s2.(tasks := ts + [Reloaded(1, result, Some(reason), 2)]);
    FailureIsWritten(s3, ts, 1, result, reason, 2);
    Then(s, es, OfPass(1, RecordOutcome(0)));
    es := es + [OfPass(1, RecordOutcome(0))];
    expiry := FailedIsOpen(s, e, s3.actions[2], reason);
    FailureKeepsRetention(s3.actions[2], reason);
  }

  lemma Starts(s: State, e: Guardrails.Evaluation)
    requires Initial(s) && Runnable(s, e)
    ensures Open(s, e) && s.tasks == [] && NextVersion(s) == 0 && !s.deleted && Saved(s, e).actions != []
    ensures !Saved(s, e).actions[0].retained
  {
  }

  lemma HasPlan(s: State, e: Guardrails.Evaluation)
    requires Runnable(s, e)
    ensures s.plans != [] && s.deployments != []
  {
  }

  lemma StillRestartable(s: State, r: State, e: Guardrails.Evaluation)
    requires Restartable(s, e) && r.plans == s.plans && r.deployments == s.deployments && r.policy == s.policy
    ensures Restartable(r, e) && FirstSpec(r, e) == FirstSpec(s, e)
    ensures forall a :: Again(s, e, a) <==> Again(r, e, a)
  {
  }

  lemma FailedOutcome(r: Request, reason: FailureReason)
    ensures FailedResult(r, reason, OutcomeFailed, 0).outcome != OutcomeUnknown
  {
  }

  lemma FailureKeepsRetention(a: AgentAction, reason: FailureReason)
    ensures After(a, FailureRecord(reason, 0)).retained == a.retained
    ensures After(a, FailureRecord(reason, 0)).spec == a.spec
  {
  }

  /** The plan decides the action again, and this time its execution succeeds. */
  lemma SecondSucceeds(s: State, e: Guardrails.Evaluation) returns (es: seq<Event>)
    requires Restartable(s, e) && !s.deleted && s.actions != [] && Again(s, e, s.actions[|s.actions| - 1])
    requires !s.actions[|s.actions| - 1].retained
    ensures var r := Run(s, es);
            !r.deleted && s.actions <= r.actions && s.tasks <= r.tasks
            && UnderVerification(r.actions[|r.actions| - 1])
  {
    hide Step, Run, Runnable, RecordingEvents, Turned, Again, FirstSpec, After, DispatchRequest, BackendFor, HasBaseline,
         ValidRestart, UnderVerification;
    HasPlan(s, e);
    ActionIsRecorded(s, e);
    SavedIsOpen(s, e);
    var v, saved := NextVersion(s), Saved(s, e);
    StillRestartable(s, saved, e);
    TurnedAction(saved, e, v);
    var ts := s.tasks + [PlanDecided(0, e, v + 1)];
    var s1 := Turned(saved, e, v).(tasks := ts + [Recorded(v + 1)]);
    es := RecordingEvents(s, e);
    var w := v + 1;
    var b := s1.actions[w];
    RequestIsValid(saved, e, b);
    var patch := PatchIsDue(s1, ts, w);
    Then(s, es, OfPass(|ts|, CallExecute(Some(0), SOME_RESULT, None, 0)));
    es := es + [OfPass(|ts|, CallExecute(Some(0), SOME_RESULT, None, 0))];
    var s2 := s1.(tasks := ts + [Patching(w, patch)], calls := s1.calls + [w]);
    PatchIsApplied(s2, ts, w, patch);
    Then(s, es, OfPass(|ts|, SendPatch(Applied, 0)));
    es := es + [OfPass(|ts|, SendPatch(Applied, 0))];
    var s3, result := Step(s2, OfPass(|ts|, SendPatch(Applied, 0))), SucceededResult(DispatchRequest(b), 0);
    ActionIsReloaded(s3, ts, w, result, None, v + 2);
    Then(s, es, OfPass(|ts|, ReloadAction(v + 2)));
    es := es + [OfPass(|ts|, ReloadAction(v + 2))];
    var s4 := s3.(tasks := ts + [Reloaded(w, result, None, v + 2)]);
    ValidHasIdentity(DispatchRequest(b));
    SuccessVerifies(s4.actions[v + 2], DispatchRequest(b), result, 0);
    SuccessIsWritten(s4, ts, w, DispatchRequest(b), result, v + 2);
    Then(s, es, OfPass(|ts|, RecordOutcome(0)));
    es := es + [OfPass(|ts|, RecordOutcome(0))];
  }

  lemma ValidHasIdentity(r: Request)
    requires ValidRestart(r)
    ensures r.executionID != NoIdentity
  {
  }

  /**
    In every initial state whose plan is approved automatically, for a target that can be restarted and with a time to
    live, a run deletes the action while its execution is being verified.
   */
  lemma DeletionCanHitVerification(s: State, e: Guardrails.Evaluation) returns (es: seq<Event>)
    requires Initial(s) && Restartable(s, e)
    ensures var r := Run(s, es);
            r.deleted && r.actions != [] && UnderVerification(r.actions[|r.actions| - 1])
  {
    hide Initial, Step, Run, Runnable, Again, FirstSpec, Route, TTLExpired, BackendFor, UnderVerification;
    var fs, expiry := FirstFails(s, e);
    var r0 := Run(s, fs);
    var v, t := |r0.actions| - 1, |r0.tasks|;
    ActionIsRead(r0, v);
    Then(s, fs, FromOutside(ReadAction(v)));
    var r1 := r0.(tasks := r0.tasks + [Observed(v)]);
    StillRestartable(s, r1, e);
    NotDeleted(s);
    var gs := SecondSucceeds(r1, e);
    RunJoins(s, fs + [FromOutside(ReadAction(v))], gs);
    var r2 := Run(r1, gs);
    assert r2.tasks[t] == r1.tasks[t] && r2.actions[v] == r1.actions[v];
    ActionIsDeleted(r2, t, v, expiry);
    es := fs + [FromOutside(ReadAction(v))] + gs;
    Then(s, es, OfPass(t, DeleteExpired(expiry)));
    es := es + [OfPass(t, DeleteExpired(expiry))];
  }

  lemma NotDeleted(s: State)
    requires Initial(s)
    ensures !s.deleted
  {
  }
}
