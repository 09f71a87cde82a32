/**
  What every serial history of an AgentAction keeps. Each write is first reduced to what it does to the few facts that
  the theorems speak about; the theorems are then inductions over sequences of those facts.
 */
module HistoryTheorems {
  import opened Wrappers
  import opened AgentActions
  import opened ActionHistory
  import opened Guardrails

  datatype ApprovalFacts = ApprovalFacts(approved: bool, source: Source, digest: Digest, decidedBy: Decider)

  /** digest is that of the content of the spec, recorded.digest the one that the approval record was made for. */
  datatype Facts = Facts(
    phase: Phase, hasId: bool, updatedAt: Time, retryCount: int, recorded: Option<ApprovalFacts>, digest: Digest,
    approverNamed: bool, timeoutSeconds: int)

  function FactsOf(a: AgentAction): Facts {
    Facts(a.status.phase, HasExecutionId(a.status), a.status.updatedAt,
          if a.status.notification.Some? then a.status.notification.value.retryCount else 0,
          if a.status.approval.None? then None
          else Some(ApprovalFacts(a.status.approval.value.approved, a.status.approval.value.source,
                                  a.status.approval.value.actionDigest, a.status.approval.value.decidedBy)),
          SpecDigest(a.spec), a.spec.approvedBy != "", a.spec.approvalTimeoutSeconds)
  }

  /** A phase from which no pass dispatches. */
  predicate Closed(x: Facts) {
    x.phase.Succeeded? || x.phase.Failed? || x.phase.Rejected? || (x.phase.Executing? && x.hasId)
  }

  predicate ApprovedFacts(x: Facts) {
    x.recorded.Some? && x.recorded.value.digest == x.digest
    && (x.recorded.value.approved || (x.recorded.value.source == ManualApprovalRequired && x.approverNamed))
  }

  function Confirmed(x: Facts): Option<ApprovalFacts>
    requires x.recorded.Some?
  {
    Some(ApprovalFacts(true, if x.recorded.value.approved then x.recorded.value.source else ManualApprovalConfirmed,
                       x.digest, x.recorded.value.decidedBy))
  }

  function Fallback(decision: Decision): Source {
    match decision
    case Auto => GuardrailsAutoApproval
    case Manual => ManualApprovalRequired
    case Reject => GuardrailsRejected
  }

  predicate SameSpec(x: Facts, y: Facts) {
    y.digest == x.digest && y.approverNamed == x.approverNamed && y.timeoutSeconds == x.timeoutSeconds
  }

  /** What one write does to the facts. */
  predicate Moves(x: Facts, w: Write, y: Facts) {
    match w
    case UserEdit(_, _, _) => y.(digest := x.digest, approverNamed := x.approverNamed, timeoutSeconds := x.timeoutSeconds) == x
    case PlanSave(_, _) => y.(digest := x.digest, approverNamed := x.approverNamed, timeoutSeconds := x.timeoutSeconds) == x
    case PlanDecision(evaluation, _) =>
      SameSpec(x, y) && y.hasId == x.hasId && y.updatedAt % SECOND == 0
      && y.recorded == Some(ApprovalFacts(evaluation.decision == Auto,
                                          ApprovalSource(evaluation, Fallback(evaluation.decision)), x.digest,
                                          PolicyEngineDecider))
    case DispatchRecord(_, _) =>
      SameSpec(x, y) && !Closed(x) && ApprovedFacts(x) && y.phase == Executing && y.hasId
      && y.updatedAt % SECOND == 0 && y.recorded == Confirmed(x)
    case DispatchRefusal(_, _, _) =>
      SameSpec(x, y) && !Closed(x) && ApprovedFacts(x) && y.phase == Failed && y.hasId && y.updatedAt % SECOND == 0
      && (y.recorded == x.recorded || y.recorded == Confirmed(x))
    case SuccessRecord(_, _, _) =>
      SameSpec(x, y) && y.phase == Succeeded && y.hasId && y.updatedAt % SECOND == 0 && y.recorded == x.recorded
    case UnknownRecord(_, _, _) =>
      SameSpec(x, y) && y.phase == Executing && y.hasId == x.hasId && y.updatedAt % SECOND == 0
      && y.recorded == x.recorded
    case FailureRecord(_, _) =>
      SameSpec(x, y) && y.phase == Failed && y.hasId == x.hasId && y.updatedAt % SECOND == 0
      && y.recorded == x.recorded
    case PendingRecord(_) =>
      SameSpec(x, y) && !Closed(x) && y.phase == WaitingApproval && y.hasId == x.hasId && y.updatedAt % SECOND == 0
      && (x.recorded.None? || x.recorded.value.digest != x.digest)
      && y.recorded == Some(ApprovalFacts(false, PendingSource, x.digest, NoDecider))
    case NotifyAttempt(_) =>
      !Closed(x) && y == x.(retryCount := x.retryCount + 1, updatedAt := WholeSeconds(x.updatedAt))
    case NotifyFailure(_) => y == x.(updatedAt := WholeSeconds(x.updatedAt))
    case Escalation(_, now) =>
      SameSpec(x, y) && !Closed(x) && x.phase != Escalated && y.phase == Escalated && y.hasId == x.hasId
      && y.recorded == x.recorded && y.updatedAt % SECOND == 0
      && now >= x.updatedAt + x.timeoutSeconds * SECOND
    case VerificationStart(_, _) => y == x.(updatedAt := WholeSeconds(x.updatedAt))
    case VerificationEnd(_, _, _, _) => y == x.(updatedAt := WholeSeconds(x.updatedAt))
  }

  lemma OutsideWriteMoves(a: AgentAction, w: Write)
    requires Legal(a, w) && (w.UserEdit? || w.PlanSave? || w.PlanDecision? || w.PendingRecord?)
    ensures Moves(FactsOf(a), w, FactsOf(After(a, w)))
  {
  }

  lemma DispatchWriteMoves(a: AgentAction, w: Write)
    requires Legal(a, w) && (w.DispatchRecord? || w.DispatchRefusal?)
    ensures Moves(FactsOf(a), w, FactsOf(After(a, w)))
  {
  }

  lemma OutcomeWriteMoves(a: AgentAction, w: Write)
    requires Legal(a, w) && (w.SuccessRecord? || w.UnknownRecord? || w.FailureRecord?)
    ensures Moves(FactsOf(a), w, FactsOf(After(a, w)))
  {
  }

  lemma WaitingWriteMoves(a: AgentAction, w: Write)
    requires Legal(a, w)
    requires w.NotifyAttempt? || w.NotifyFailure? || w.Escalation? || w.VerificationStart? || w.VerificationEnd?
    ensures Moves(FactsOf(a), w, FactsOf(After(a, w)))
  {
    hide EndOutcome, AwaitsVerification, Reached;
  }

  lemma EveryWriteMoves(a: AgentAction, w: Write)
    requires Legal(a, w)
    ensures Moves(FactsOf(a), w, FactsOf(After(a, w)))
  {
    if w.UserEdit? || w.PlanSave? || w.PlanDecision? || w.PendingRecord? {
      OutsideWriteMoves(a, w);
    } else if w.DispatchRecord? || w.DispatchRefusal? {
      DispatchWriteMoves(a, w);
    } else if w.SuccessRecord? || w.UnknownRecord? || w.FailureRecord? {
      OutcomeWriteMoves(a, w);
    } else {
      WaitingWriteMoves(a, w);
    }
  }

  function AllFacts(vs: seq<AgentAction>): (xs: seq<Facts>)
    ensures |xs| == |vs| && forall k :: 0 <= k < |vs| ==> xs[k] == FactsOf(vs[k])
  {
    seq(|vs|, k requires 0 <= k < |vs| => FactsOf(vs[k]))
  }

  ghost predicate Line(xs: seq<Facts>, ws: seq<Write>) {
    |xs| == |ws| + 1
    && xs[0].recorded.None? && !xs[0].hasId && xs[0].phase == NoPhase && xs[0].updatedAt == 0
    && forall k {:trigger ws[k]} :: 0 <= k < |ws| ==> Moves(xs[k], ws[k], xs[k + 1])
  }

  lemma HistoriesAreLines(h: History)
    requires Serial(h)
    ensures Line(AllFacts(h.versions), h.writes)
  {
    forall k | 0 <= k < |h.writes|
      ensures Moves(AllFacts(h.versions)[k], h.writes[k], AllFacts(h.versions)[k + 1])
    {
      EveryWriteMoves(h.versions[k], h.writes[k]);
    }
  }

  // ------------------------------------------------------------ at most one dispatch

  function Dispatches(ws: seq<Write>, n: nat): nat
    requires n <= |ws|
  {
    if n == 0 then 0 else Dispatches(ws, n - 1) + (if ws[n - 1].DispatchRecord? then 1 else 0)
  }

  /** The decisions written after a dispatch. */
  function Redecisions(ws: seq<Write>, n: nat): nat
    requires n <= |ws|
  {
    if n == 0 then 0
    else Redecisions(ws, n - 1) + (if ws[n - 1].PlanDecision? && Dispatches(ws, n - 1) > 0 then 1 else 0)
  }

  lemma {:induction false} DispatchBoundOnLine(xs: seq<Facts>, ws: seq<Write>, n: nat)
    requires Line(xs, ws) && n <= |ws|
    ensures Dispatches(ws, n) > 0 ==>
              xs[n].hasId && Dispatches(ws, n) <= Redecisions(ws, n) + (if Closed(xs[n]) then 1 else 0)
  {
    if n > 0 {
      DispatchBoundOnLine(xs, ws, n - 1);
    }
  }

  /** Every dispatch but the first is paid for by a decision written after a dispatch. */
  lemma DispatchBound(h: History)
    requires Serial(h)
    ensures Dispatches(h.writes, |h.writes|) <= 1 + Redecisions(h.writes, |h.writes|)
  {
    HistoriesAreLines(h);
    DispatchBoundOnLine(AllFacts(h.versions), h.writes, |h.writes|);
  }

  // ---------------------------------------------------------------- who approved

  /** Write j is a decision of this kind, made for the content with this digest. */
  ghost predicate DecidedAt(xs: seq<Facts>, ws: seq<Write>, j: int, digest: Digest, decision: Decision) {
    0 <= j < |ws| < |xs| && ws[j].PlanDecision? && ws[j].evaluation.decision == decision && xs[j].digest == digest
  }

  ghost predicate Decided(xs: seq<Facts>, ws: seq<Write>, n: nat, digest: Digest, decision: Decision) {
    exists j :: 0 <= j < n && DecidedAt(xs, ws, j, digest, decision)
  }

  /** What the approval record of a version rests on. */
  ghost predicate Backed(xs: seq<Facts>, ws: seq<Write>, n: nat)
    requires n < |xs|
  {
    match xs[n].recorded
    case None => true
    case Some(r) =>
      if r.approved && r.source != ManualApprovalConfirmed then Decided(xs, ws, n, r.digest, Auto)
      else if r.approved then Decided(xs, ws, n, r.digest, Manual) && Closed(xs[n]) && xs[n].hasId
      else r.source == ManualApprovalRequired ==> Decided(xs, ws, n, r.digest, Manual)
  }

  lemma {:induction false} EveryApprovalIsBacked(xs: seq<Facts>, ws: seq<Write>, n: nat)
    requires Line(xs, ws) && n <= |ws|
    ensures Backed(xs, ws, n)
  {
    if n > 0 {
      EveryApprovalIsBacked(xs, ws, n - 1);
      var w := ws[n - 1];
      if w.PlanDecision? {
        assert DecidedAt(xs, ws, n - 1, xs[n - 1].digest, w.evaluation.decision);
      }
    }
  }

  /**
    Whatever is dispatched was decided before, for exactly this content, and not by a rejection: automatically, or by
    requiring a human whose name is in the very version that records the execution.
   */
  lemma DispatchIsApproved(h: History, k: nat)
    requires Serial(h) && k < |h.writes| && h.writes[k].DispatchRecord?
    ensures h.versions[k + 1].spec == h.versions[k].spec
    ensures var digest := SpecDigest(h.versions[k].spec);
            var xs := AllFacts(h.versions);
            Decided(xs, h.writes, k, digest, Auto)
            || (Decided(xs, h.writes, k, digest, Manual) && h.versions[k + 1].spec.approvedBy != "")
  {
    HistoriesAreLines(h);
    EveryApprovalIsBacked(AllFacts(h.versions), h.writes, k);
    assert Moves(AllFacts(h.versions)[k], h.writes[k], AllFacts(h.versions)[k + 1]);
  }

  /** After a manual decision of a matched ApprovalPolicy, naming an approver does not get the action dispatched. */
  lemma {:induction false} PolicyManualIsNotConfirmed(xs: seq<Facts>, ws: seq<Write>, j: nat, n: nat)
    requires Line(xs, ws) && j < n <= |ws|
    requires ws[j].PlanDecision? && ws[j].evaluation.decision == Manual && ws[j].evaluation.policy.Some?
    requires forall k :: j < k < n ==> !ws[k].PlanDecision?
    ensures xs[n].recorded.Some? && !xs[n].recorded.value.approved
    ensures xs[n].recorded.value.source.PolicySource? || xs[n].recorded.value.source == PendingSource
    ensures !ApprovedFacts(xs[n])
  {
    if j + 1 < n {
      PolicyManualIsNotConfirmed(xs, ws, j, n - 1);
    }
    assert Moves(xs[n - 1], ws[n - 1], xs[n]);
  }

  /** Until it is decided again or dispatched, a manual decision stays on record as it was made. */
  lemma {:induction false} ManualStays(xs: seq<Facts>, ws: seq<Write>, j: nat, n: nat)
    requires Line(xs, ws) && j < n <= |ws|
    requires ws[j].PlanDecision? && ws[j].evaluation.decision == Manual
    requires forall k :: j < k < n ==> !ws[k].PlanDecision? && !ws[k].DispatchRecord? && !ws[k].DispatchRefusal?
    requires forall k :: j <= k <= n ==> xs[k].digest == xs[j].digest
    ensures xs[n].recorded == Some(ApprovalFacts(false, ApprovalSource(ws[j].evaluation, ManualApprovalRequired),
                                                 xs[j].digest, PolicyEngineDecider))
  {
    if j + 1 < n {
      ManualStays(xs, ws, j, n - 1);
    }
    assert Moves(xs[n - 1], ws[n - 1], xs[n]);
  }

  /**
    While the content stays the same, an action that was decided manually counts as approved exactly when no
    ApprovalPolicy matched and an approver is named, whatever else was written in between.
   */
  lemma ManualIsConfirmedExactlyWhen(xs: seq<Facts>, ws: seq<Write>, j: nat, n: nat)
    requires Line(xs, ws) && j < n <= |ws|
    requires ws[j].PlanDecision? && ws[j].evaluation.decision == Manual
    requires forall k :: j < k < n ==> !ws[k].PlanDecision? && !ws[k].DispatchRecord? && !ws[k].DispatchRefusal?
    requires forall k :: j <= k <= n ==> xs[k].digest == xs[j].digest
    ensures ApprovedFacts(xs[n]) <==> ws[j].evaluation.policy.None? && xs[n].approverNamed
  {
    ManualStays(xs, ws, j, n);
  }

  /** Naming an approver after a manual decision gets the action dispatched exactly when no ApprovalPolicy matched. */
  lemma NamingAnApproverDispatchesExactlyWhen(a: AgentAction, evaluation: Evaluation, now: Time, approver: string)
    requires evaluation.decision == Manual && approver != ""
    ensures var b := After(a, PlanDecision(evaluation, now));
            var edit := UserEdit(b.spec.(approvedBy := approver), b.targetUIDAnnotation, b.retained);
            Route(After(b, edit)) == Dispatch <==> evaluation.policy.None? && Route(a) != VerifyEffectiveness
  {
    hide Stored;
    var b := After(a, PlanDecision(evaluation, now));
    var named := b.spec.(approvedBy := approver);
    StoredDecision(a, evaluation, now);
    DigestIgnoresOnlyTheApprover(named, b.spec);
  }

  /** A manual decision itself makes an action dispatchable exactly when an approver is left from before it. */
  lemma ManualDecisionDispatchesExactlyWhen(a: AgentAction, evaluation: Evaluation, now: Time)
    requires evaluation.decision == Manual
    ensures Route(After(a, PlanDecision(evaluation, now))) == Dispatch <==>
            evaluation.policy.None? && Route(a) != VerifyEffectiveness && a.spec.approvedBy != ""
  {
    hide Stored;
    StoredDecision(a, evaluation, now);
  }

  lemma StoredDecision(a: AgentAction, evaluation: Evaluation, now: Time)
    requires evaluation.decision == Manual
    ensures var b := After(a, PlanDecision(evaluation, now));
            b.spec == a.spec && b.status.phase == WaitingApproval && b.status.approval.Some?
            && !b.status.approval.value.approved && b.status.approval.value.actionDigest == SpecDigest(a.spec)
            && b.status.approval.value.source == ApprovalSource(evaluation, ManualApprovalRequired)
            && (b.status.effectiveness.Some? <==> a.status.effectiveness.Some?)
            && (a.status.effectiveness.Some? ==>
                  b.status.effectiveness.value.phase == a.status.effectiveness.value.phase)
  {
  }

  // ------------------------------------------------------------- no lost decision

  predicate HoldsDecision(x: Facts) {
    x.recorded.Some? && x.recorded.value.decidedBy == PolicyEngineDecider && x.recorded.value.digest == x.digest
  }

  /** A decision for the content at hand stays on record, whoever writes in between, until the content changes. */
  lemma {:induction false} DecisionStays(xs: seq<Facts>, ws: seq<Write>, i: nat, j: nat)
    requires Line(xs, ws) && i <= j < |xs|
    requires HoldsDecision(xs[i])
    requires forall k :: i <= k <= j ==> xs[k].digest == xs[i].digest
    ensures HoldsDecision(xs[j])
  {
    if i < j {
      DecisionStays(xs, ws, i, j - 1);
      assert Moves(xs[j - 1], ws[j - 1], xs[j]);
    }
  }

  lemma FactsOfDigest(a: AgentAction)
    ensures FactsOf(a).digest == SpecDigest(a.spec)
  {
  }

  /** A pending record lands only on a version whose approval was made for other content, or that has none. */
  lemma PendingMeansOutdated(h: History, j: nat)
    requires Serial(h) && j < |h.writes| && h.writes[j].PendingRecord?
    ensures !HoldsDecision(FactsOf(h.versions[j]))
  {
    HistoriesAreLines(h);
    assert Moves(AllFacts(h.versions)[j], h.writes[j], AllFacts(h.versions)[j + 1]);
  }

  /** The transient pending record replaces a decision only after somebody changed the content. */
  lemma PendingNeedsChangedContent(h: History, i: nat, j: nat)
    requires Serial(h) && i <= j < |h.writes| && h.writes[j].PendingRecord?
    requires HoldsDecision(FactsOf(h.versions[i]))
    ensures exists k :: i < k <= j && SpecDigest(h.versions[k].spec) != SpecDigest(h.versions[i].spec)
  {
    hide Legal, After, FactsOf, Moves;
    HistoriesAreLines(h);
    var xs := AllFacts(h.versions);
    FactsOfDigest(h.versions[i]);
    if forall k :: i <= k <= j ==> xs[k].digest == xs[i].digest {
      DecisionStays(xs, h.writes, i, j);
      PendingMeansOutdated(h, j);
      assert false;
    }
    var k :| i <= k <= j && xs[k].digest != xs[i].digest;
    FactsOfDigest(h.versions[k]);
    assert SpecDigest(h.versions[k].spec) != SpecDigest(h.versions[i].spec);
  }

  // ------------------------------------------------------------ the approval deadline

  /** Writes that a validly waiting action may receive before it is escalated, decided again or dispatched. */
  predicate KeepsWaiting(w: Write) {
    w.UserEdit? || w.PlanSave? || w.NotifyAttempt? || w.NotifyFailure?
  }

  function Attempts(ws: seq<Write>, lo: nat, hi: nat): nat
    requires lo <= hi <= |ws|
  {
    if lo == hi then 0 else Attempts(ws, lo, hi - 1) + (if ws[hi - 1].NotifyAttempt? then 1 else 0)
  }

  lemma {:induction false} AnchorsAreWholeSeconds(xs: seq<Facts>, ws: seq<Write>, n: nat)
    requires Line(xs, ws) && n <= |ws|
    ensures xs[n].updatedAt % SECOND == 0
  {
    if n > 0 {
      AnchorsAreWholeSeconds(xs, ws, n - 1);
      assert Moves(xs[n - 1], ws[n - 1], xs[n]);
    }
  }

  /** While an action waits its anchor does not move, and the retry count is the number of attempts. */
  lemma {:induction false} DeadlineDoesNotSlide(xs: seq<Facts>, ws: seq<Write>, i: nat, j: nat)
    requires Line(xs, ws) && i <= j <= |ws|
    requires forall k :: i <= k < j ==> KeepsWaiting(ws[k])
    ensures xs[j].updatedAt == xs[i].updatedAt && xs[j].phase == xs[i].phase
    ensures xs[j].retryCount == xs[i].retryCount + Attempts(ws, i, j)
  {
    if i < j {
      DeadlineDoesNotSlide(xs, ws, i, j - 1);
      AnchorsAreWholeSeconds(xs, ws, j - 1);
      assert Moves(xs[j - 1], ws[j - 1], xs[j]);
    }
  }

  /** Escalation comes no earlier than the timeout after the moment the waiting began, however often it was retried. */
  lemma EscalationIsNotEarly(xs: seq<Facts>, ws: seq<Write>, i: nat, j: nat)
    requires Line(xs, ws) && i <= j < |ws| && ws[j].Escalation?
    requires forall k :: i <= k < j ==> KeepsWaiting(ws[k])
    ensures ws[j].now >= xs[i].updatedAt + xs[j].timeoutSeconds * SECOND
    ensures xs[j + 1].phase == Escalated && xs[i].phase != Escalated
  {
    DeadlineDoesNotSlide(xs, ws, i, j);
    assert Moves(xs[j], ws[j], xs[j + 1]);
  }

  /** Between two escalations some other write took the action out of the escalated phase. */
  lemma EscalatedOncePerWait(xs: seq<Facts>, ws: seq<Write>, i: nat, j: nat)
    requires Line(xs, ws) && i < j < |ws| && ws[i].Escalation? && ws[j].Escalation?
    ensures exists k :: i < k < j && !KeepsWaiting(ws[k]) && !ws[k].Escalation?
  {
    assert Moves(xs[i], ws[i], xs[i + 1]);
    if forall k :: i < k < j ==> KeepsWaiting(ws[k]) {
      EscalationIsNotEarly(xs, ws, i + 1, j);
      assert false;
    }
    var k :| i < k < j && !KeepsWaiting(ws[k]);
    if ws[k].Escalation? {
      EscalatedOncePerWait(xs, ws, i, k);
    }
  }
}
