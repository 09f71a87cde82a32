/** What every persisted InvestigationRequest status keeps, over any sequence of generations. */
module InvestigationTheorems {
  import opened Wrappers
  import opened Verdict
  import opened InvestigationStatus
  import StatusBudget
  import Text

  predicate Holds(c: Option<Condition>) {
    c.Some? && c.value.status == IsTrue
  }

  /** What a completed or failed status says about itself. */
  ghost predicate Consistent(s: Status) {
    (s.phase.Completed? || s.phase.Failed?) ==>
      (s.phase.Completed? <==> Holds(s.conditions.ready))
      && (s.phase.Completed? <==> s.failure.None?)
      && (Holds(s.conditions.remediationReady) <==> s.outcome == Confirmed)
      && (s.linked.Some? ==> s.outcome == Confirmed)
      && (s.phase.Failed? ==> s.outcome == UnknownOutcome)
      && s.outcome != NoOutcome && s.completedAt.Some?
      && Fresh(s, s.conditions.ready) && Fresh(s, s.conditions.remediationReady)
      && Fresh(s, s.conditions.rcaReady) && Fresh(s, s.conditions.degraded)
  }

  /** The condition was set for the generation that the status observed. */
  predicate Fresh(s: Status, c: Option<Condition>) {
    c.Some? && c.value.generation == s.observedGeneration
  }

  lemma BlockedIsConsistent(s: Status, p: Pass)
    requires p.loopFailure.Some? || p.invalid.Some?
    ensures Consistent(Next(s, p))
  {
    hide TargetCode, InvalidCode, Evaluate, RootCauses, BuiltClaims;
  }

  lemma GatedIsConsistent(s: Status, p: Pass)
    requires p.loopFailure.None? && p.invalid.None? && p.gate.Some? && (!p.gate.value.complete || p.gate.value.noIssueFound)
    ensures Consistent(Next(s, p))
  {
    hide Evaluate, RootCauses, BuiltClaims;
  }

  lemma VerdictsAreDecided(causal: seq<Claim>, provider: real)
    ensures Evaluate(causal, provider).outcome == Confirmed || Evaluate(causal, provider).outcome == Inconclusive
  {
  }

  lemma FailingIsConsistent(s: Status, p: Pass, issue: Issue, resetVerified: bool)
    requires s.linked.None? && s.observedGeneration == p.generation && Fresh(s, s.conditions.rcaReady)
    ensures Consistent(Failing(s, p, issue, resetVerified))
  {
  }

  lemma ExecutedIsConsistent(s: Status, p: Pass)
    requires s.linked.None? && s.observedGeneration == p.generation && s.outcome == NoOutcome
    ensures Consistent(Executed(s, p)) && Executed(s, p).linked.None?
    ensures Executed(s, p).observedGeneration == p.generation
  {
    hide Evaluate, RootCauses, BuiltClaims, Failing, Consistent;
    var staged := s.(conditions := StageConditions(s.conditions, p));
    if FirstIssue(p.preflight).Some? {
      FailingIsConsistent(staged, p, FirstIssue(p.preflight).value, true);
      FailingKeeps(staged, p, FirstIssue(p.preflight).value, true);
    } else if p.evidenceIssue.Some? {
      FailingIsConsistent(staged, p, p.evidenceIssue.value, false);
      FailingKeeps(staged, p, p.evidenceIssue.value, false);
    } else if p.rcaIssue.Some? {
      FailingIsConsistent(staged, p, p.rcaIssue.value, false);
      FailingKeeps(staged, p, p.rcaIssue.value, false);
    } else {
      CompletedIsConsistent(s, p);
    }
  }

  lemma FailingKeeps(s: Status, p: Pass, issue: Issue, resetVerified: bool)
    ensures Failing(s, p, issue, resetVerified).linked == s.linked
    ensures Failing(s, p, issue, resetVerified).observedGeneration == s.observedGeneration
  {
  }

  lemma CompletedIsConsistent(s: Status, p: Pass)
    requires s.linked.None? && s.observedGeneration == p.generation && s.outcome == NoOutcome
    requires FirstIssue(p.preflight).None? && p.evidenceIssue.None? && p.rcaIssue.None?
    ensures Consistent(Executed(s, p)) && Executed(s, p).linked.None?
    ensures Executed(s, p).observedGeneration == p.generation
  {
    hide Evaluate, RootCauses, BuiltClaims, Failing, FirstIssue, ScoreOf;
    if p.reasoning.Some? {
      var r := p.reasoning.value;
      VerdictsAreDecided(RootCauses(r, BuiltClaims(p.findings, r)), ScoreOf(r));
    }
  }

  lemma ProjectedIsConsistent(s: Status, p: Pass)
    requires Consistent(s)
    ensures Consistent(Projected(s, p)) && Projected(s, p).observedGeneration == s.observedGeneration
  {
  }

  lemma BudgetedIsConsistent(s: Status, p: Pass)
    requires Consistent(s) && s.observedGeneration == p.generation
    ensures Consistent(Budgeted(s, p))
  {
  }

  lemma BegunIsEmpty(s: Status, p: Pass)
    ensures var b := Begun(s, p);
            b.linked.None? && b.observedGeneration == p.generation && b.outcome == NoOutcome && b.claims == []
            && b.conditions == s.conditions
  {
  }

  /** Whatever conditions were carried over, a pass leaves a consistent status. */
  lemma NextIsConsistent(s: Status, p: Pass)
    ensures Consistent(Next(s, p))
  {
    hide Next, Consistent;
    if p.loopFailure.Some? || p.invalid.Some? {
      BlockedIsConsistent(s, p);
    } else if p.gate.Some? && (!p.gate.value.complete || p.gate.value.noIssueFound) {
      GatedIsConsistent(s, p);
    } else {
      BegunIsEmpty(s, p);
      ExecutedIsConsistent(Begun(s, p), p);
      ProjectedIsConsistent(Executed(Begun(s, p), p), p);
      BudgetedIsConsistent(Projected(Executed(Begun(s, p), p), p), p);
      ExecutingNext(s, p);
    }
  }

  lemma ExecutingNext(s: Status, p: Pass)
    requires p.loopFailure.None? && p.invalid.None?
    requires !(p.gate.Some? && (!p.gate.value.complete || p.gate.value.noIssueFound))
    ensures Next(s, p) == Budgeted(Projected(Executed(Begun(s, p), p), p), p)
  {
    hide Begun, Executed, Projected, Budgeted;
  }

  // ----------------------------------------------------------------------- every run

  /** A pass may be skipped, finish, finish after a checkpoint, or stop after the checkpoint. */
  datatype Step = Finish(pass: Pass) | FinishAfterCheckpoint(pass: Pass) | StopAfterCheckpoint(pass: Pass)

  function Versions(s: Status, step: Step): (vs: seq<Status>) {
    if Skips(s, step.pass.generation) then []
    else
      match step
      case Finish(p) => [Next(s, p)]
      case FinishAfterCheckpoint(p) => [Checkpointed(s, p), Next(s, p)]
      case StopAfterCheckpoint(p) => [Checkpointed(s, p)]
  }

  const EMPTY := Status(NoPhase, 0, None, None, NoOutcome, None, 0.0, [], None, NO_CONDITIONS)

  /** Every version that a run of passes stores, each pass starting from the latest. */
  function Run(steps: seq<Step>): (vs: seq<Status>)
    ensures vs != []
  {
    if steps == [] then [EMPTY]
    else
      var before := Run(steps[..|steps| - 1]);
      before + Versions(before[|before| - 1], steps[|steps| - 1])
  }

  /** Every persisted version of every run is consistent, across generations, checkpoints and crashes. */
  lemma {:induction false} EveryVersionIsConsistent(steps: seq<Step>, k: nat)
    requires k < |Run(steps)|
    ensures Consistent(Run(steps)[k])
  {
    hide Next, Skips, Begun;
    if steps == [] {
      return;
    }
    var before, step := Run(steps[..|steps| - 1]), steps[|steps| - 1];
    if k < |before| {
      EveryVersionIsConsistent(steps[..|steps| - 1], k);
    } else {
      NextIsConsistent(before[|before| - 1], step.pass);
    }
  }

  // ------------------------------------------------------------------ what confirms

  predicate Concludes(p: Pass) {
    p.loopFailure.None? && p.invalid.None?
    && !(p.gate.Some? && (!p.gate.value.complete || p.gate.value.noIssueFound))
    && FirstIssue(p.preflight).None? && p.evidenceIssue.None? && p.rcaIssue.None? && p.reasoning.Some?
  }

  /**
    A pass stores Confirmed exactly when it reaches a verdict, some proposed cause other than the summary and the
    scheduling mechanism is supported, and no such cause is contradicted.
   */
  lemma ConfirmedHasSupportedCause(s: Status, p: Pass)
    ensures Next(s, p).outcome == Confirmed <==>
            Concludes(p)
            && (exists c :: Proposed(p.findings, p.reasoning.value, c) && p.findings.verify(c) == Supported)
            && (forall c :: Proposed(p.findings, p.reasoning.value, c) ==> p.findings.verify(c) != Contradicted)
  {
    hide Proposed, Evaluate, RootCauses, BuiltClaims, StageConditions, OutcomeConditions, Blocked, TargetCode, InvalidCode;
    if p.reasoning.Some? {
      ConfirmedExactlyWhen(p.findings, p.reasoning.value, ScoreOf(p.reasoning.value));
    }
  }

  /** The spec is valid, and the request is not caught in a loop. */
  predicate Runs(p: Pass) {
    p.loopFailure.None? && p.invalid.None?
  }

  predicate Cleared(p: Pass) {
    Runs(p) && p.gate.Some? && p.gate.value.complete && p.gate.value.noIssueFound
  }

  predicate LacksEvidence(p: Pass) {
    Runs(p) && p.gate.Some? && !p.gate.value.complete
  }

  /** What a pass past the gate fails for: the first issue of the preflight, of the evidence, of the provider. */
  function FailureOf(p: Pass): Option<Issue> {
    if p.preflight.target.Some? then p.preflight.target
    else if p.preflight.datasource.Some? then p.preflight.datasource
    else if p.preflight.queryType.Some? then p.preflight.queryType
    else if p.preflight.provider.Some? then p.preflight.provider
    else if p.evidenceIssue.Some? then p.evidenceIssue
    else p.rcaIssue
  }

  /** The code that a pass fails with, if it fails. */
  function FailureCode(p: Pass): Option<string> {
    if p.loopFailure.Some? then p.loopFailure
    else if p.invalid.Some? then Some(if Text.TrimSpace(p.invalid.value.code) == "" then "InvalidSpec" else p.invalid.value.code)
    else if p.gate.Some? && (!p.gate.value.complete || p.gate.value.noIssueFound) then None
    else if FailureOf(p).Some? then Some(FailureOf(p).value.code)
    else None
  }

  predicate Shows(c: Option<Condition>, status: Tri, p: Pass) {
    c == Some(Condition(status, p.generation))
  }

  /** The outcome, phase and failure of a pass, each exactly when. */
  ghost predicate EndsAs(n: Status, p: Pass) {
    && (n.outcome == NoIssueFound <==> Cleared(p))
    && (n.outcome == Inconclusive <==>
          LacksEvidence(p)
          || (Concludes(p)
              && !((exists c :: Proposed(p.findings, p.reasoning.value, c) && p.findings.verify(c) == Supported)
                   && (forall c :: Proposed(p.findings, p.reasoning.value, c) ==> p.findings.verify(c) != Contradicted))))
    && (n.outcome == UnknownOutcome <==> FailureCode(p).Some? || !(Cleared(p) || LacksEvidence(p) || Concludes(p)))
    && n.failure == FailureCode(p)
    && n.phase == (if FailureCode(p).Some? then Failed else Completed)
    && n.observedGeneration == p.generation && n.completedAt == Some(p.now)
  }

  /** What the conditions of a pass tell that ended at the gate or before it. */
  ghost predicate TellsEarlyEnd(n: Status, p: Pass) {
    && (Cleared(p) ==>
          Shows(n.conditions.evidenceReady, IsTrue, p) && Shows(n.conditions.rcaReady, IsTrue, p)
          && Shows(n.conditions.verified, IsTrue, p) && Shows(n.conditions.degraded, Truth(p.otherCut), p)
          && n.claims == [] && n.confidence == 0.0)
    && (LacksEvidence(p) ==>
          Shows(n.conditions.evidenceReady, IsFalse, p) && Shows(n.conditions.rcaReady, IsFalse, p)
          && Shows(n.conditions.verified, IsUnknown, p) && Shows(n.conditions.degraded, IsTrue, p)
          && n.claims == [] && n.confidence == 0.0)
    && (!Runs(p) ==>
          Shows(n.conditions.evidenceReady, IsUnknown, p) && Shows(n.conditions.rcaReady, IsFalse, p)
          && Shows(n.conditions.verified, IsUnknown, p) && Shows(n.conditions.degraded, Truth(p.otherCut), p)
          && Shows(n.conditions.targetResolved,
                   if p.loopFailure.None? && FailureCode(p).value in {"TargetInvalid", "UnsupportedTargetKind"}
                   then IsFalse else IsUnknown, p))
  }

  /** What the conditions of a pass tell that went past the gate. */
  ghost predicate TellsExecution(n: Status, p: Pass) {
    Runs(p) && !Cleared(p) && !LacksEvidence(p) ==>
      && Shows(n.conditions.targetResolved, Truth(p.preflight.target.None?), p)
      && Shows(n.conditions.datasourceResolved, Truth(p.preflight.datasource.None?), p)
      && (Shows(n.conditions.evidenceReady, IsTrue, p) <==>
            p.preflight.datasource.None? && p.preflight.queryType.None? && p.preflight.provider.None?
            && p.evidenceIssue.None?)
      && (Shows(n.conditions.evidenceReady, IsFalse, p) <==>
            p.preflight.datasource.Some?
            || (p.preflight.queryType.None? && p.preflight.provider.None? && p.evidenceIssue.Some?))
      && (Concludes(p) ==>
            Shows(n.conditions.verified, Truth(n.outcome == Confirmed), p)
            && Shows(n.conditions.rcaReady, Truth(n.outcome == Confirmed), p))
      && (FailureCode(p).Some? && !p.otherCut ==> Shows(n.conditions.degraded, Truth(FailureOf(p).value.degrades), p))
      && (FailureCode(p).None? ==>
            Shows(n.conditions.degraded, IsTrue, p)
            || (Shows(n.conditions.degraded, IsFalse, p) && !p.evidenceDegraded && !p.otherCut))
      && (Shows(n.conditions.queryTypeSupported, IsTrue, p) <==>
            if p.preflight.queryType.Some? then p.preflight.queryType.value.policyRejected
            else p.preflight.datasource.None?)
      && (Shows(n.conditions.queryPolicyReady, IsFalse, p) <==>
            p.preflight.queryType.Some? && p.preflight.queryType.value.policyRejected)
      && (Shows(n.conditions.queryPolicyReady, IsTrue, p) <==>
            p.preflight.queryType.None? && p.preflight.datasource.None?)
      && (Shows(n.conditions.rcaReady, IsTrue, p) || Shows(n.conditions.rcaReady, IsFalse, p))
      && (p.preflight.provider.Some? || p.evidenceIssue.Some? || p.rcaIssue.Some? ==>
            Shows(n.conditions.rcaReady, IsFalse, p))
      && (FailureCode(p).Some? && FirstIssue(p.preflight).Some? ==> Shows(n.conditions.verified, IsUnknown, p))
  }

  lemma EarlyEnds(s: Status, p: Pass)
    requires !Runs(p) || Cleared(p) || LacksEvidence(p)
    ensures EndsAs(Next(s, p), p) && TellsEarlyEnd(Next(s, p), p) && TellsExecution(Next(s, p), p)
  {
    hide Text.TrimSpace, Evaluate, RootCauses, BuiltClaims, Proposed, StatusBudget.Cut;
  }

  lemma FailedNext(s: Status, p: Pass)
    requires Runs(p) && !Cleared(p) && !LacksEvidence(p) && FailureOf(p).Some?
    ensures var b := Begun(s, p);
            var staged := b.(conditions := StageConditions(b.conditions, p));
            var failing := Failing(staged, p, FailureOf(p).value, FirstIssue(p.preflight).Some?);
            Next(s, p) == Budgeted(failing, p) && failing.claims == [] && failing.observedGeneration == p.generation
  {
    hide Begun, StageConditions, Budgeted, Evaluate, RootCauses, BuiltClaims;
    BegunIsEmpty(s, p);
  }

  lemma NothingToCut(s: Status, p: Pass)
    requires s.claims == []
    ensures Budgeted(s, p) == s.(conditions := s.conditions.(
              degraded := if p.otherCut then Is(p, IsTrue) else s.conditions.degraded))
  {
    hide StatusBudget.Cut;
  }

  lemma FailedEnds(s: Status, p: Pass)
    requires Runs(p) && !Cleared(p) && !LacksEvidence(p) && FailureOf(p).Some?
    ensures EndsAs(Next(s, p), p) && TellsEarlyEnd(Next(s, p), p) && TellsExecution(Next(s, p), p)
  {
    hide Text.TrimSpace, Proposed, Begun, Budgeted, Next;
    FailedNext(s, p);
    var b := Begun(s, p);
    var staged := b.(conditions := StageConditions(b.conditions, p));
    NothingToCut(Failing(staged, p, FailureOf(p).value, FirstIssue(p.preflight).Some?), p);
  }

  lemma CompletedEnds(s: Status, p: Pass)
    requires Runs(p) && !Cleared(p) && !LacksEvidence(p) && FailureOf(p).None?
    ensures EndsAs(Next(s, p), p) && TellsEarlyEnd(Next(s, p), p) && TellsExecution(Next(s, p), p)
  {
    hide Text.TrimSpace, Evaluate, RootCauses, BuiltClaims, Proposed, ScoreOf, StatusBudget.Cut;
    ConfirmedHasSupportedCause(s, p);
    if p.reasoning.Some? {
      var r := p.reasoning.value;
      VerdictsAreDecided(RootCauses(r, BuiltClaims(p.findings, r)), ScoreOf(r));
    }
  }

  /**
    A pass that concludes stores the share of supported ones among its counted claims as confidence, or the provider's
    score out of a hundred if that is less; no other pass stores any.
   */
  lemma ConfidenceExactlyWhen(s: Status, p: Pass)
    ensures !Concludes(p) || Next(s, p).outcome != Confirmed ==> Next(s, p).confidence == 0.0
    ensures Concludes(p) && Next(s, p).outcome == Confirmed ==>
              var r := p.reasoning.value;
              var claims, score := BuiltClaims(p.findings, r), r.score as real / 100.0;
              var rest := if Blank(r.riskSummary) then claims else claims[1..];
              var n, m := |CountedPositions(rest)|, |VerifiedPositions(rest, Supported)|;
              n > 0 && Next(s, p).confidence == (if m as real / n as real > score then score else m as real / n as real)
  {
    hide Blank, CountedPositions, VerifiedPositions, StageConditions, OutcomeConditions, Blocked, TargetCode, InvalidCode,
      StatusBudget.Cut, RootCauses, Evaluate, Proposed, CauseClaims, EvidenceClaims;
    if p.reasoning.Some? {
      var r := p.reasoning.value;
      var claims := BuiltClaims(p.findings, r);
      ConfidenceIsTheShare(r, claims, ScoreOf(r));
      VerdictsAreDecided(RootCauses(r, claims), ScoreOf(r));
    }
  }

  /** A concluded investigation looks degraded exactly when its evidence is, or the budget shortened anything. */
  lemma DegradedExactlyWhen(s: Status, p: Pass)
    requires Concludes(p)
    ensures Shows(Next(s, p).conditions.degraded,
                  Truth(p.evidenceDegraded || p.otherCut || Next(s, p).claims != BuiltClaims(p.findings, p.reasoning.value)), p)
  {
    hide Evaluate, RootCauses, BuiltClaims, StageConditions, StatusBudget.Cut, CutClaim;
    var r := p.reasoning.value;
    VerdictsAreDecided(RootCauses(r, BuiltClaims(p.findings, r)), ScoreOf(r));
  }

  /** A pass stores nothing exactly when the generation has ended, and otherwise its end at least or a checkpoint. */
  lemma LeftAloneExactlyWhen(s: Status, step: Step)
    ensures Versions(s, step) == [] <==>
            s.observedGeneration == step.pass.generation && s.phase in {Completed, Failed, Rejected}
  {
  }

  /** The start is that of the generation: set by its first pass and by one after its end, and kept in between. */
  lemma StartedExactlyWhen(s: Status, p: Pass)
    ensures Next(s, p).startedAt
         == if s.startedAt.Some? && s.observedGeneration == p.generation && !Terminal(s.phase) then s.startedAt
            else Some(p.now)
    ensures Checkpointed(s, p).startedAt == Next(s, p).startedAt
  {
    hide Evaluate, RootCauses, BuiltClaims, StageConditions, OutcomeConditions, Blocked, TargetCode, InvalidCode,
      StatusBudget.Cut;
  }

  /** A checkpoint ends nothing: it names no outcome, no failure and no claims, and keeps the conditions as they were. */
  lemma CheckpointsEndNothing(s: Status, p: Pass)
    ensures var c := Checkpointed(s, p);
            c.phase == ReasoningPhase && c.outcome == NoOutcome && c.failure.None? && c.claims == [] && c.linked.None?
            && c.completedAt.None? && c.confidence == 0.0 && c.observedGeneration == p.generation
            && c.conditions == s.conditions.(degraded := if p.otherCut then Is(p, IsTrue) else s.conditions.degraded)
  {
  }

  /** Every pass ends as its findings say, and its conditions tell why. */
  lemma EndsExactlyWhen(s: Status, p: Pass)
    ensures EndsAs(Next(s, p), p) && TellsEarlyEnd(Next(s, p), p) && TellsExecution(Next(s, p), p)
  {
    hide Next, EndsAs, TellsEarlyEnd, TellsExecution;
    if !Runs(p) || Cleared(p) || LacksEvidence(p) {
      EarlyEnds(s, p);
    } else if FailureOf(p).Some? {
      FailedEnds(s, p);
    } else {
      CompletedEnds(s, p);
    }
  }

  /** Once a generation has ended, the next version stored is of another one. */
  lemma {:induction false} EndsOncePerGeneration(steps: seq<Step>, k: nat)
    requires k + 1 < |Run(steps)| && Terminal(Run(steps)[k].phase)
    ensures Run(steps)[k + 1].observedGeneration != Run(steps)[k].observedGeneration
  {
    hide Next, Begun, Checkpointed;
    var before, step := Run(steps[..|steps| - 1]), steps[|steps| - 1];
    if k + 1 < |before| {
      EndsOncePerGeneration(steps[..|steps| - 1], k);
    } else {
      var s := before[|before| - 1];
      ObservesItsGeneration(s, step.pass);
      assert Run(steps)[k + 1] == Versions(s, step)[k + 1 - |before|];
    }
  }

  lemma ObservesItsGeneration(s: Status, p: Pass)
    ensures Next(s, p).observedGeneration == p.generation
    ensures Checkpointed(s, p).observedGeneration == p.generation && !Terminal(Checkpointed(s, p).phase)
  {
    hide EndsAs, TellsEarlyEnd, TellsExecution, Next;
    EndsExactlyWhen(s, p);
    EndsObserve(Next(s, p), p);
  }

  lemma EndsObserve(n: Status, p: Pass)
    requires EndsAs(n, p)
    ensures n.observedGeneration == p.generation
  {
    hide Concludes, Cleared, LacksEvidence, Proposed;
  }

  /** Version k was stored at the end of pass i, or is the checkpoint of that pass. */
  lemma {:induction false} StoredByAPass(steps: seq<Step>, k: nat) returns (i: nat, v: nat)
    requires 0 < k < |Run(steps)|
    ensures i < |steps| && v < k
    ensures Run(steps)[k] == Next(Run(steps)[v], steps[i].pass) || Run(steps)[k] == Checkpointed(Run(steps)[v], steps[i].pass)
  {
    hide Next, Skips, Begun, Checkpointed;
    var before, step := Run(steps[..|steps| - 1]), steps[|steps| - 1];
    if k < |before| {
      i, v := StoredByAPass(steps[..|steps| - 1], k);
    } else {
      i, v := |steps| - 1, |before| - 1;
    }
  }

  /** In every run, each stored end is that of a pass of the run, with its outcome, failure and conditions exactly when. */
  lemma EveryEndIsOfAPass(steps: seq<Step>, k: nat) returns (i: nat)
    requires k < |Run(steps)| && Terminal(Run(steps)[k].phase)
    ensures i < |steps|
    ensures EndsAs(Run(steps)[k], steps[i].pass) && TellsEarlyEnd(Run(steps)[k], steps[i].pass)
            && TellsExecution(Run(steps)[k], steps[i].pass)
  {
    hide Next, EndsAs, TellsEarlyEnd, TellsExecution, Skips;
    StartsEmpty(steps);
    var v: nat;
    i, v := StoredByAPass(steps, k);
    EndsExactlyWhen(Run(steps)[v], steps[i].pass);
  }

  lemma {:induction false} StartsEmpty(steps: seq<Step>)
    ensures Run(steps)[0] == EMPTY
  {
    hide Next, Skips, Checkpointed;
    if steps != [] {
      StartsEmpty(steps[..|steps| - 1]);
    }
  }

  /** A risk signal is linked only by a confirmed pass that was asked for one. */
  lemma LinkedOnlyWhenConfirmed(s: Status, p: Pass)
    requires Next(s, p).linked.Some?
    ensures Next(s, p).outcome == Confirmed && p.createRiskSignal && Next(s, p).linked == p.link
  {
    hide Evaluate, RootCauses, BuiltClaims, StageConditions, OutcomeConditions, Blocked, TargetCode, InvalidCode;
  }

  /** The stored claims are the first of those the verdict was made from, with each statement cut and nothing else. */
  lemma StoredClaimsAreCut(s: Status, p: Pass)
    requires Concludes(p)
    ensures var claims := BuiltClaims(p.findings, p.reasoning.value);
            Room(p) == (if p.keep <= 16 then p.keep else 16)
            && Next(s, p).claims == CutClaims(if |claims| > Room(p) then claims[..Room(p)] else claims)
            && (Next(s, p).claims == claims <==>
                  |claims| <= Room(p)
                  && forall k :: 0 <= k < |claims| ==>
                       StatusBudget.Bytes(claims[k].statement) <= 1024)
  {
    hide Evaluate, RootCauses, BuiltClaims, StageConditions, OutcomeConditions, StatusBudget.Cut;
    var claims := BuiltClaims(p.findings, p.reasoning.value);
    forall k | 0 <= k < |claims|
      ensures CutClaim(claims[k]) == claims[k] <==>
              StatusBudget.Bytes(claims[k].statement) <= StatusBudget.MAX_CLAIM_STATEMENT_BYTES
    {
      StatusBudget.CutIsTheLongest(claims[k].statement, StatusBudget.MAX_CLAIM_STATEMENT_BYTES);
    }
  }

  /** Claim k counts for the verdict and is supported: it comes after the summary and is not the mechanism. */
  predicate Supports(r: Verdict.Reasoning, claims: seq<Claim>, k: int) {
    (if Blank(r.riskSummary) then 0 else 1) <= k < |claims| && !claims[k].mechanism
    && claims[k].verification == Supported
  }

  /** The position of the first claim, from n on, that counts and is supported; past the end if there is none. */
  function FirstSupport(r: Verdict.Reasoning, claims: seq<Claim>, n: nat): (k: nat)
    requires n <= |claims|
    ensures n <= k <= |claims| && (k < |claims| ==> Supports(r, claims, k))
    ensures forall j :: n <= j < k ==> !Supports(r, claims, j)
    decreases |claims| - n
  {
    if n == |claims| || Supports(r, claims, n) then n else FirstSupport(r, claims, n + 1)
  }

  /** A confirmed status still shows a claim that confirms it exactly when the first such claim is within the budget. */
  lemma CauseIsShownExactlyWhen(s: Status, p: Pass)
    requires Next(s, p).outcome == Confirmed
    ensures var r := p.reasoning.value;
            (exists k :: Supports(r, Next(s, p).claims, k)) <==>
            FirstSupport(r, BuiltClaims(p.findings, r), 0) < Room(p)
  {
    hide Proposed, BuiltClaims, Next, Blank, RootCauses, CutClaim;
    ConfirmedHasSupportedCause(s, p);
    StoredClaimsAreCut(s, p);
    var r := p.reasoning.value;
    var claims, stored := BuiltClaims(p.findings, r), Next(s, p).claims;
    ConfirmedHasSupport(p.findings, r);
    var first := FirstSupport(r, claims, 0);
    forall k | 0 <= k < |stored|
      ensures Supports(r, stored, k) <==> Supports(r, claims, k)
    {
      CutKeepsVerdict(claims[k]);
    }
    if first < Room(p) {
      assert Supports(r, stored, first);
    }
  }

  lemma CutKeepsVerdict(c: Claim)
    ensures CutClaim(c).mechanism == c.mechanism && CutClaim(c).verification == c.verification
  {
  }

  lemma ConfirmedHasSupport(f: Findings, r: Verdict.Reasoning)
    requires exists c :: Proposed(f, r, c) && f.verify(c) == Supported
    ensures exists k :: Supports(r, BuiltClaims(f, r), k)
  {
    hide Proposed, BuiltClaims, RootCauses, Blank;
    var c :| Proposed(f, r, c) && f.verify(c) == Supported;
    var claims, start := BuiltClaims(f, r), if Blank(r.riskSummary) then 0 else 1;
    RootCausesAreTheProposed(f, r, ClaimOf(f, c));
    CountedMembers(r, claims, ClaimOf(f, c));
    var k :| start <= k < |claims| && claims[k] == ClaimOf(f, c);
    assert Supports(r, claims, k);
  }

  lemma CountedMembers(r: Verdict.Reasoning, claims: seq<Claim>, c: Claim)
    requires c in RootCauses(r, claims)
    ensures !c.mechanism
    ensures exists k :: (if Blank(r.riskSummary) then 0 else 1) <= k < |claims| && claims[k] == c
  {
    hide Blank;
    var start := if Blank(r.riskSummary) then 0 else 1;
    NotMechanismMembers(claims[start..], c);
    var k :| 0 <= k < |claims[start..]| && claims[start..][k] == c;
    assert claims[k + start] == c;
  }

  /** Seventeen causes of which only the last is supported. */
  function ManyCauses(supported: string, other: string): seq<string> {
    seq(17, i => if i == 16 then supported else other)
  }

  lemma {:induction false} EachCauseIsAClaim(f: Findings, causes: seq<string>)
    requires forall i :: 0 <= i < |causes| ==> !Blank(causes[i])
    ensures |CauseClaims(f, causes)| == |causes|
    ensures forall i :: 0 <= i < |causes| ==> CauseClaims(f, causes)[i] == ClaimOf(f, causes[i])
  {
    hide Blank;
    if causes != [] {
      EachCauseIsAClaim(f, causes[..|causes| - 1]);
    }
  }

  /** The budget can cut off the very claim that confirmed the investigation: here it is the seventeenth. */
  lemma TruncationCanHideTheCause(s: Status, p: Pass, supported: string, other: string)
    requires Concludes(p) && p.findings.profileClaim.None? && p.findings.mechanismClaim.None?
    requires p.reasoning.value.riskSummary == "" && p.reasoning.value.causes == ManyCauses(supported, other)
    requires !Blank(supported) && !Blank(other)
    requires p.findings.verify(supported) == Supported && p.findings.verify(other) == Unverified
    requires !p.findings.aboutMechanism(supported)
    ensures Next(s, p).outcome == Confirmed
    ensures forall k :: !Supports(p.reasoning.value, Next(s, p).claims, k)
  {
    hide Proposed, CauseClaims, BuiltClaims, Next, Blank, ManyCauses;
    var r, f := p.reasoning.value, p.findings;
    ConfirmedHasSupportedCause(s, p);
    ManyCausesAreProposed(f, r, supported, other);
    HiddenBeyondTheLimit(f, r, supported, other);
    BlankSummary(f, r);
    CauseIsShownExactlyWhen(s, p);
  }

  lemma ManyCausesAreProposed(f: Findings, r: Verdict.Reasoning, supported: string, other: string)
    requires f.profileClaim.None? && r.causes == ManyCauses(supported, other) && !Blank(supported)
    requires !f.aboutMechanism(supported)
    ensures Proposed(f, r, supported)
    ensures forall c :: Proposed(f, r, c) ==> c == supported || c == other
  {
    hide Blank;
    assert r.causes[16] == supported;
  }

  lemma HiddenBeyondTheLimit(f: Findings, r: Verdict.Reasoning, supported: string, other: string)
    requires r.causes == ManyCauses(supported, other) && !Blank(supported) && !Blank(other)
    requires f.verify(other) == Unverified
    ensures |CauseClaims(f, r.causes)| == 17
    ensures forall k :: 0 <= k < MAX_CLAIMS ==> CauseClaims(f, r.causes)[k].verification == Unverified
  {
    hide Blank, CauseClaims;
    EachCauseIsAClaim(f, r.causes);
  }

  lemma BlankSummary(f: Findings, r: Verdict.Reasoning)
    requires r.riskSummary == "" && f.profileClaim.None? && f.mechanismClaim.None?
    ensures BuiltClaims(f, r) == CauseClaims(f, r.causes)
  {
    hide CauseClaims, Text.TrimSpace;
    Text.TrimSpaceLeaves("");
    assert Blank(r.riskSummary);
    assert [] + CauseClaims(f, r.causes) + [] == CauseClaims(f, r.causes);
  }

  // ------------------------------------------------------- a condition that is not reset

  /** The pass ends without setting the verification condition. */
  predicate LeavesVerified(p: Pass) {
    p.loopFailure.None? && p.invalid.None?
    && !(p.gate.Some? && (!p.gate.value.complete || p.gate.value.noIssueFound))
    && FirstIssue(p.preflight).None?
    && (p.evidenceIssue.Some? || p.rcaIssue.Some? || p.reasoning.None?)
  }

  /**
    The verification condition speaks of the current pass except after failed evidence collection, a failed provider
    or a completion without reasoning, where it is the one of an earlier generation.
   */
  lemma VerifiedIsCarriedExactlyWhen(s: Status, p: Pass)
    requires s.conditions.verified.Some? ==> s.conditions.verified.value.generation < p.generation
    ensures Fresh(Next(s, p), Next(s, p).conditions.verified) <==> !LeavesVerified(p)
    ensures LeavesVerified(p) ==> Next(s, p).conditions.verified == s.conditions.verified
  {
    hide Executed, Projected, Budgeted, Begun, TargetCode, InvalidCode;
    var b := Begun(s, p);
    BegunIsEmpty(s, p);
    if p.loopFailure.Some? {
      BudgetKeepsVerified(LoopPrevented(b, p, p.loopFailure.value), p);
    } else if p.invalid.Some? {
      BudgetKeepsVerified(Invalid(b, p, p.invalid.value), p);
    } else if p.gate.Some? && !p.gate.value.complete {
      BudgetKeepsVerified(GateInconclusive(b, p), p);
    } else if p.gate.Some? && p.gate.value.noIssueFound {
      BudgetKeepsVerified(GateNoIssue(b, p), p);
    } else {
      ExecutedVerified(b, p);
      BudgetKeepsVerified(Projected(Executed(b, p), p), p);
      ProjectionKeepsVerified(Executed(b, p), p);
    }
  }

  lemma BudgetKeepsVerified(s: Status, p: Pass)
    ensures Budgeted(s, p).conditions.verified == s.conditions.verified
    ensures Budgeted(s, p).observedGeneration == s.observedGeneration
  {
  }

  lemma ProjectionKeepsVerified(s: Status, p: Pass)
    ensures Projected(s, p).conditions == s.conditions && Projected(s, p).observedGeneration == s.observedGeneration
  {
  }

  lemma ExecutedVerified(s: Status, p: Pass)
    requires s.observedGeneration == p.generation && s.outcome == NoOutcome
    ensures Executed(s, p).observedGeneration == p.generation
    ensures FirstIssue(p.preflight).None? && (p.evidenceIssue.Some? || p.rcaIssue.Some? || p.reasoning.None?) ==>
              Executed(s, p).conditions.verified == s.conditions.verified
    ensures FirstIssue(p.preflight).Some? || (p.evidenceIssue.None? && p.rcaIssue.None? && p.reasoning.Some?) ==>
              Fresh(Executed(s, p), Executed(s, p).conditions.verified)
  {
    hide Evaluate, RootCauses, BuiltClaims, FirstIssue, ScoreOf;
    if p.reasoning.Some? {
      var r := p.reasoning.value;
      VerdictsAreDecided(RootCauses(r, BuiltClaims(p.findings, r)), ScoreOf(r));
    }
  }

  /** So a failed generation can still show the verification of the one before it. */
  lemma FailedCanLookVerified(s: Status, p: Pass)
    requires Consistent(s) && s.phase.Completed? && s.outcome == Confirmed && Holds(s.conditions.verified)
    requires LeavesVerified(p) && p.evidenceIssue.Some?
    ensures Next(s, p).phase.Failed? && Holds(Next(s, p).conditions.verified)
            && !Holds(Next(s, p).conditions.remediationReady)
  {
    hide Evaluate, RootCauses, BuiltClaims;
  }
}
