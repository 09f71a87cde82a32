/** The order of the times that a history records, and the windows of the effectiveness verification. */
module ActionTimes {
  import opened Wrappers
  import opened AgentActions
  import opened ActionHistory
  import opened EffectivenessEvaluation

  datatype Times = Times(
    captured: Option<Time>, started: Option<Time>, verifying: bool, settling: Option<Time>, observation: Option<Time>)

  function TimesOf(status: Status): Times {
    Times(if HasBaseline(status) then Some(BaselineOf(status).capturedAt) else None,
          if status.execution.Some? then status.execution.value.startedAt else None,
          status.effectiveness.Some? && status.effectiveness.value.phase == Verifying,
          if status.effectiveness.Some? then status.effectiveness.value.settlingUntil else None,
          if status.effectiveness.Some? then status.effectiveness.value.observationUntil else None)
  }

  predicate Whole(t: Option<Time>) {
    t.Some? ==> t.value % SECOND == 0
  }

  /** A stored baseline always has a stored start of the execution beside it, in whole seconds like itself. */
  predicate Anchored(x: Times) {
    Whole(x.captured) && Whole(x.started) && (x.captured.Some? ==> x.started.Some?)
  }

  /** What a write does to the times, seen as stored. */
  predicate TimesMove(x: Times, w: Write, y: Times) {
    match w
    case DispatchRecord(baseline, _) =>
      Anchored(y) && y.started.Some?
      && (baseline.Some? ==> !y.verifying)
      && (baseline.None? ==>
            y.verifying == x.verifying && y.settling == WholeSecondsOf(x.settling)
            && y.observation == WholeSecondsOf(x.observation))
    case DispatchRefusal(_, _, _) => y == Times(None, None, false, None, None)
    case SuccessRecord(_, _, now) =>
      y.captured == WholeSecondsOf(x.captured) && Whole(y.started)
      && (x.captured.Some? ==>
            y.started.Some? && y.verifying && y.settling == Some(WholeSeconds(now + SETTLING_PERIOD))
            && y.observation == Some(WholeSeconds(now + SETTLING_PERIOD + OBSERVATION_WINDOW)))
      && (x.captured.None? ==> !y.verifying)
    case VerificationEnd(_, _, _, now) =>
      x.verifying && !y.verifying && Reached(x.settling, now) && Reached(x.observation, now)
      && y.captured == WholeSecondsOf(x.captured) && y.started == WholeSecondsOf(x.started)
    case _ =>
      y.verifying == x.verifying
      && (y == x || y == Times(WholeSecondsOf(x.captured), WholeSecondsOf(x.started), x.verifying,
                               WholeSecondsOf(x.settling), WholeSecondsOf(x.observation)))
  }

  lemma DispatchMovesTimes(a: AgentAction, w: Write)
    requires Legal(a, w) && (w.DispatchRecord? || w.DispatchRefusal?) && Anchored(TimesOf(a.status))
    ensures TimesMove(TimesOf(a.status), w, TimesOf(After(a, w).status))
  {
  }

  lemma SuccessMovesTimes(a: AgentAction, w: Write)
    requires Legal(a, w) && w.SuccessRecord?
    ensures TimesMove(TimesOf(a.status), w, TimesOf(After(a, w).status))
  {
  }

  lemma OutcomeMovesTimes(a: AgentAction, w: Write)
    requires Legal(a, w) && (w.UnknownRecord? || w.FailureRecord?)
    ensures TimesMove(TimesOf(a.status), w, TimesOf(After(a, w).status))
  {
  }

  lemma VerdictMovesTimes(a: AgentAction, w: Write)
    requires Legal(a, w) && w.VerificationEnd?
    ensures TimesMove(TimesOf(a.status), w, TimesOf(After(a, w).status))
  {
    hide SpecDigest, EndOutcome, IsApproved;
  }

  lemma OtherMovesTimes(a: AgentAction, w: Write)
    requires Legal(a, w) && !w.DispatchRecord? && !w.DispatchRefusal? && !w.SuccessRecord?
    requires !w.UnknownRecord? && !w.FailureRecord? && !w.VerificationEnd?
    ensures TimesMove(TimesOf(a.status), w, TimesOf(After(a, w).status))
  {
    hide SpecDigest, DecisionStatus, EndOutcome, Route, TimeoutApplies, Deadline, NeedsFreshPending;
    if w.PlanDecision? {
      DecisionKeepsTimes(a, w);
    }
  }

  lemma DecisionKeepsTimes(a: AgentAction, w: Write)
    requires w.PlanDecision?
    ensures var s := DecisionStatus(a, w.evaluation, w.now);
            s.execution == a.status.execution && s.effectiveness == a.status.effectiveness
  {
  }

  lemma {:induction false} VersionsAreAnchored(h: History, n: nat)
    requires Serial(h) && n < |h.versions|
    ensures Anchored(TimesOf(h.versions[n].status))
  {
    hide Legal, After, TimesOf;
    if n > 0 {
      VersionsAreAnchored(h, n - 1);
      assert Follows(h.versions[n - 1], h.writes[n - 1], h.versions[n]);
      StepMovesTimes(h.versions[n - 1], h.writes[n - 1]);
    } else {
      EmptyTimes();
    }
  }

  lemma EmptyTimes()
    ensures TimesOf(EMPTY_STATUS) == Times(None, None, false, None, None)
  {
  }

  lemma StepMovesTimes(a: AgentAction, w: Write)
    requires Legal(a, w) && Anchored(TimesOf(a.status))
    ensures TimesMove(TimesOf(a.status), w, TimesOf(After(a, w).status))
    ensures Anchored(TimesOf(After(a, w).status))
  {
    hide Legal, After, TimesOf;
    if w.DispatchRecord? || w.DispatchRefusal? {
      DispatchMovesTimes(a, w);
    } else if w.SuccessRecord? {
      SuccessMovesTimes(a, w);
    } else if w.UnknownRecord? || w.FailureRecord? {
      OutcomeMovesTimes(a, w);
    } else if w.VerificationEnd? {
      VerdictMovesTimes(a, w);
    } else {
      OtherMovesTimes(a, w);
    }
  }

  // ---------------------------------------------------------------------- time order

  /** In memory: captured before started, started before finished. */
  lemma SuccessIsInOrder(a: AgentAction, request: Request, result: Result, now: Time)
    requires HasBaseline(a.status)
    ensures var s := SuccessStatus(a, request, result, now);
            HasBaseline(s) && s.execution.Some? && s.execution.value.startedAt.Some?
            && s.execution.value.finishedAt.Some?
            && BaselineOf(s).capturedAt < s.execution.value.startedAt.value < s.execution.value.finishedAt.value
            && s.execution.value.finishedAt == s.finishedAt
    ensures var s := SuccessStatus(a, request, result, now);
            BaselineOf(s) == BaselineOf(a.status) && s.execution.value.startedAt == RecordedStart(a, result)
            && s.effectiveness.value.settlingUntil == Some(now + SETTLING_PERIOD)
            && s.effectiveness.value.observationUntil == Some(now + SETTLING_PERIOD + OBSERVATION_WINDOW)
  {
  }

  lemma WholeOrder(a: AgentAction, result: Result)
    requires HasBaseline(a.status) && Anchored(TimesOf(a.status))
    ensures RecordedStart(a, result).Some?
    ensures WholeSeconds(BaselineOf(a.status).capturedAt) < WholeSeconds(RecordedStart(a, result).value)
  {
  }

  /** As stored, in whole seconds: captured still before started, started no later than finished. */
  lemma SuccessKeepsTimeOrder(a: AgentAction, request: Request, result: Result, now: Time)
    requires HasBaseline(a.status) && Anchored(TimesOf(a.status))
    ensures var t := Stored(SuccessStatus(a, request, result, now));
            HasBaseline(t) && t.execution.Some? && t.execution.value.startedAt.Some? && t.execution.value.finishedAt.Some?
            && BaselineOf(t).capturedAt < t.execution.value.startedAt.value <= t.execution.value.finishedAt.value
            && t.effectiveness.value.observationUntil.value - t.effectiveness.value.settlingUntil.value
               == OBSERVATION_WINDOW
  {
    hide SuccessStatus, RecordedStart;
    SuccessIsInOrder(a, request, result, now);
    WholeOrder(a, result);
  }

  /** In every history, whatever the clocks said. */
  lemma RecordedSuccessIsInOrder(h: History, k: nat)
    requires Serial(h) && k < |h.writes| && h.writes[k].SuccessRecord? && HasBaseline(h.versions[k].status)
    ensures var s := h.versions[k + 1].status;
            HasBaseline(s) && s.execution.Some? && s.execution.value.startedAt.Some? && s.execution.value.finishedAt.Some?
            && BaselineOf(s).capturedAt < s.execution.value.startedAt.value <= s.execution.value.finishedAt.value
  {
    hide SuccessStatus, Stored, Route, HasBaseline;
    VersionsAreAnchored(h, k);
    var w := h.writes[k];
    assert Follows(h.versions[k], w, h.versions[k + 1]);
    SuccessKeepsTimeOrder(h.versions[k], w.request, w.result, w.now);
  }

  // ------------------------------------------------------------- verification windows

  /** Write i is the success whose windows a verifying version waits for. */
  predicate WindowsOf(x: Times, ws: seq<Write>, i: int) {
    0 <= i < |ws| && ws[i].SuccessRecord?
    && x.settling == Some(WholeSeconds(ws[i].now + SETTLING_PERIOD))
    && x.observation == Some(WholeSeconds(ws[i].now + SETTLING_PERIOD + OBSERVATION_WINDOW))
  }

  lemma {:induction false} VerifyingHasWindows(h: History, n: nat) returns (i: int)
    requires Serial(h) && n < |h.versions| && TimesOf(h.versions[n].status).verifying
    ensures i < n && WindowsOf(TimesOf(h.versions[n].status), h.writes, i)
  {
    hide Legal, After, TimesOf;
    if n == 0 {
      EmptyTimes();
      assert false;
    }
    var a, w := h.versions[n - 1], h.writes[n - 1];
    VersionsAreAnchored(h, n - 1);
    assert Follows(a, w, h.versions[n]);
    StepMovesTimes(a, w);
    if w.SuccessRecord? {
      i := n - 1;
    } else {
      i := VerifyingHasWindows(h, n - 1);
    }
  }

  /** A verdict is stored only when both windows after a recorded success have passed and the finding is final. */
  lemma VerdictWaitsForItsWindows(h: History, k: nat) returns (i: int)
    requires Serial(h) && k < |h.writes| && h.writes[k].VerificationEnd?
    ensures 0 <= i < k && h.writes[i].SuccessRecord?
    ensures h.writes[k].now >= WholeSeconds(h.writes[i].now + SETTLING_PERIOD + OBSERVATION_WINDOW)
    ensures h.writes[k].verification.terminal
    ensures h.versions[k + 1].status.effectiveness.Some?
    ensures h.versions[k + 1].status.effectiveness.value.outcome == Effective ==>
              HasBaseline(h.versions[k].status)
              && EffectivenessEvaluation.Evaluate(Some(BaselineOf(h.versions[k].status)), h.writes[k].post,
                                                  Some(h.writes[k].verification.finding)) == Effective
  {
    hide After, TimesOf, Route, AwaitsVerification, Evaluate;
    var a, w := h.versions[k], h.writes[k];
    VersionsAreAnchored(h, k);
    assert Follows(a, w, h.versions[k + 1]);
    StepMovesTimes(a, w);
    i := VerifyingHasWindows(h, k);
    EndStatus(a, w);
  }

  lemma EndStatus(a: AgentAction, w: Write)
    requires Legal(a, w) && w.VerificationEnd?
    ensures HasBaseline(a.status)
    ensures var s := After(a, w).status;
            s.effectiveness.Some? && s.effectiveness.value.outcome == EndOutcome(a, w)
  {
    hide Evaluate;
  }
}
