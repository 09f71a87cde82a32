/** The status of an InvestigationRequest, assigned in place by each pass on top of what the last generation left. */
module InvestigationStatus {
  import opened Wrappers
  import opened Verdict
  import StatusBudget

  datatype Tri = IsTrue | IsFalse | IsUnknown

  datatype ConditionType =
    | Ready
    | TargetResolved
    | DatasourceResolved
    | QueryTypeSupported
    | QueryPolicyReady
    | EvidenceReady
    | RCAReady
    | Verified
    | RemediationReady
    | Degraded

  datatype Condition = Condition(status: Tri, generation: nat)

  /** The conditions by type; one that was never set is absent. */
  datatype Conditions = Conditions(
    ready: Option<Condition>, targetResolved: Option<Condition>, datasourceResolved: Option<Condition>,
    queryTypeSupported: Option<Condition>, queryPolicyReady: Option<Condition>, evidenceReady: Option<Condition>,
    rcaReady: Option<Condition>, verified: Option<Condition>, remediationReady: Option<Condition>,
    degraded: Option<Condition>)

  const NO_CONDITIONS := Conditions(None, None, None, None, None, None, None, None, None, None)

  function With(cs: Conditions, kind: ConditionType, c: Condition): Conditions {
    match kind
    case Ready => cs.(ready := Some(c))
    case TargetResolved => cs.(targetResolved := Some(c))
    case DatasourceResolved => cs.(datasourceResolved := Some(c))
    case QueryTypeSupported => cs.(queryTypeSupported := Some(c))
    case QueryPolicyReady => cs.(queryPolicyReady := Some(c))
    case EvidenceReady => cs.(evidenceReady := Some(c))
    case RCAReady => cs.(rcaReady := Some(c))
    case Verified => cs.(verified := Some(c))
    case RemediationReady => cs.(remediationReady := Some(c))
    case Degraded => cs.(degraded := Some(c))
  }

  datatype Phase = NoPhase | Collecting | ReasoningPhase | Completed | Failed | Rejected

  datatype Status = Status(
    phase: Phase, observedGeneration: nat, startedAt: Option<int>, completedAt: Option<int>, outcome: Outcome,
    failure: Option<string>, confidence: real, claims: seq<Claim>, linked: Option<string>, conditions: Conditions)

  /** An issue by its code, with what the code says about degradation and about query policy. */
  datatype Issue = Issue(code: string, degrades: bool, policyRejected: bool)

  datatype Preflight = Preflight(
    target: Option<Issue>, datasource: Option<Issue>, queryType: Option<Issue>, provider: Option<Issue>)

  datatype Gate = Gate(complete: bool, noIssueFound: bool)

  /**
    What one pass finds out: a loop failure or an invalid spec, or else the results of its stages. keep is how many of
    the cut claims the size of the whole status leaves room for; otherCut tells that the budget shortens something else.
   */
  datatype Pass = Pass(
    generation: nat, now: int, loopFailure: Option<string>, invalid: Option<Issue>, preflight: Preflight,
    evidenceIssue: Option<Issue>, evidenceDegraded: bool, gate: Option<Gate>, reasoning: Option<Verdict.Reasoning>,
    rcaIssue: Option<Issue>, findings: Findings, createRiskSignal: bool, link: Option<string>, keep: nat,
    otherCut: bool)

  const MAX_CLAIMS := 16

  function FirstIssue(p: Preflight): Option<Issue> {
    if p.target.Some? then p.target
    else if p.datasource.Some? then p.datasource
    else if p.queryType.Some? then p.queryType
    else p.provider
  }

  function Is(p: Pass, status: Tri): Option<Condition> {
    Some(Condition(status, p.generation))
  }

  function Truth(b: bool): Tri {
    if b then IsTrue else IsFalse
  }

  predicate Terminal(phase: Phase) {
    phase.Completed? || phase.Failed? || phase.Rejected?
  }

  predicate Skips(s: Status, generation: nat) {
    s.observedGeneration == generation && Terminal(s.phase)
  }

  function Begun(s: Status, p: Pass): Status {
    var restarting := s.observedGeneration != p.generation || Terminal(s.phase);
    Status(Collecting, p.generation, if s.startedAt.None? || restarting then Some(p.now) else s.startedAt, None,
           NoOutcome, None, 0.0, [], None, s.conditions)
  }

  function NotRunnable(cs: Conditions, p: Pass): Conditions {
    cs.(datasourceResolved := Is(p, IsUnknown), queryTypeSupported := Is(p, IsUnknown),
        queryPolicyReady := Is(p, IsUnknown), evidenceReady := Is(p, IsUnknown))
  }

  function Blocked(cs: Conditions, p: Pass, target: Tri): Conditions {
    NotRunnable(cs, p).(
      ready := Is(p, IsFalse), targetResolved := Is(p, target), rcaReady := Is(p, IsFalse),
      remediationReady := Is(p, IsFalse), verified := Is(p, IsUnknown), degraded := Is(p, IsFalse))
  }

  function LoopPrevented(s: Status, p: Pass, code: string): Status {
    s.(phase := Failed, outcome := UnknownOutcome, failure := Some(code), completedAt := Some(p.now),
       conditions := Blocked(s.conditions, p, IsUnknown))
  }

  predicate TargetCode(code: string) {
    code == "TargetInvalid" || code == "UnsupportedTargetKind"
  }

  /** A blank reason is reported as an invalid spec. */
  function InvalidCode(issue: Issue): string {
    if Blank(issue.code) then "InvalidSpec" else issue.code
  }

  function Invalid(s: Status, p: Pass, issue: Issue): Status {
    s.(phase := Failed, outcome := UnknownOutcome, failure := Some(InvalidCode(issue)), completedAt := Some(p.now),
       conditions := Blocked(s.conditions, p, if TargetCode(InvalidCode(issue)) then IsFalse else IsUnknown))
  }

  function Resolved(cs: Conditions, p: Pass): Conditions {
    cs.(targetResolved := Is(p, IsTrue), datasourceResolved := Is(p, IsTrue), queryTypeSupported := Is(p, IsTrue),
        queryPolicyReady := Is(p, IsTrue))
  }

  function GateInconclusive(s: Status, p: Pass): Status {
    s.(phase := Completed, outcome := Inconclusive, failure := None, confidence := 0.0, claims := [],
       completedAt := Some(p.now),
       conditions := Resolved(s.conditions, p).(
         evidenceReady := Is(p, IsFalse), rcaReady := Is(p, IsFalse), remediationReady := Is(p, IsFalse),
         verified := Is(p, IsUnknown), ready := Is(p, IsTrue), degraded := Is(p, IsTrue)))
  }

  function GateNoIssue(s: Status, p: Pass): Status {
    s.(phase := Completed, outcome := NoIssueFound, failure := None, confidence := 0.0, claims := [],
       completedAt := Some(p.now),
       conditions := Resolved(s.conditions, p).(
         evidenceReady := Is(p, IsTrue), rcaReady := Is(p, IsTrue), verified := Is(p, IsTrue),
         remediationReady := Is(p, IsFalse), ready := Is(p, IsTrue), degraded := Is(p, IsFalse)))
  }

  /** The conditions that report how far the stages came. */
  function StageConditions(cs: Conditions, p: Pass): Conditions {
    var f := p.preflight;
    cs.(
      targetResolved := Is(p, Truth(f.target.None?)),
      datasourceResolved := Is(p, Truth(f.datasource.None?)),
      evidenceReady := Is(p,
        if f.datasource.Some? then IsFalse
        else if f.provider.Some? || f.queryType.Some? then IsUnknown
        else Truth(p.evidenceIssue.None?)),
      queryTypeSupported := Is(p,
        if f.queryType.Some? then Truth(f.queryType.value.policyRejected)
        else if f.datasource.Some? then IsUnknown else IsTrue),
      queryPolicyReady := Is(p,
        if f.queryType.Some? then if f.queryType.value.policyRejected then IsFalse else IsUnknown
        else if f.datasource.Some? then IsUnknown else IsTrue),
      rcaReady := Is(p, Truth(f.provider.None? && p.evidenceIssue.None? && p.rcaIssue.None?)))
  }

  /** The failed end of a pass; the verification condition is reset only when the preflight failed. */
  function Failing(s: Status, p: Pass, issue: Issue, resetVerified: bool): Status {
    s.(phase := Failed, outcome := UnknownOutcome, failure := Some(issue.code), confidence := 0.0,
       completedAt := Some(p.now),
       conditions := s.conditions.(
         ready := Is(p, IsFalse), degraded := Is(p, Truth(issue.degrades)), remediationReady := Is(p, IsFalse),
         verified := if resetVerified then Is(p, IsUnknown) else s.conditions.verified))
  }

  function ScoreOf(r: Verdict.Reasoning): real {
    r.score as real / 100.0
  }

  function Judged(s: Status, p: Pass, r: Verdict.Reasoning): Status {
    var claims := BuiltClaims(p.findings, r);
    var e := Evaluate(RootCauses(r, claims), ScoreOf(r));
    s.(outcome := e.outcome, confidence := e.confidence, claims := claims)
  }

  function OutcomeConditions(cs: Conditions, p: Pass, outcome: Outcome): Conditions {
    match outcome
    case Confirmed =>
      cs.(rcaReady := Is(p, IsTrue), verified := Is(p, IsTrue), remediationReady := Is(p, IsTrue),
          ready := Is(p, IsTrue), degraded := Is(p, Truth(p.evidenceDegraded)))
    case Inconclusive =>
      cs.(rcaReady := Is(p, IsFalse), verified := Is(p, IsFalse), remediationReady := Is(p, IsFalse),
          ready := Is(p, IsTrue), degraded := Is(p, Truth(p.evidenceDegraded)))
    case _ =>
      cs.(remediationReady := Is(p, IsFalse), ready := Is(p, IsTrue), degraded := Is(p, Truth(p.evidenceDegraded)))
  }

  function Executed(s: Status, p: Pass): Status {
    var staged := s.(conditions := StageConditions(s.conditions, p));
    if FirstIssue(p.preflight).Some? then Failing(staged, p, FirstIssue(p.preflight).value, true)
    else if p.evidenceIssue.Some? then Failing(staged, p, p.evidenceIssue.value, false)
    else if p.rcaIssue.Some? then Failing(staged, p, p.rcaIssue.value, false)
    else
      var judged := if p.reasoning.Some? then Judged(staged, p, p.reasoning.value) else staged;
      var outcome := if judged.outcome == NoOutcome then UnknownOutcome else judged.outcome;
      judged.(phase := Completed, completedAt := Some(p.now), outcome := outcome, failure := None,
              conditions := OutcomeConditions(judged.conditions, p, outcome))
  }

  function Projected(s: Status, p: Pass): Status {
    if p.reasoning.Some? && p.createRiskSignal && s.outcome == Confirmed then s.(linked := p.link) else s
  }

  function CutClaim(c: Claim): Claim {
    c.(statement := StatusBudget.Cut(c.statement, StatusBudget.MAX_CLAIM_STATEMENT_BYTES))
  }

  function CutClaims(claims: seq<Claim>): (r: seq<Claim>)
    ensures |r| == |claims| && forall k :: 0 <= k < |r| ==> r[k] == CutClaim(claims[k])
  {
    seq(|claims|, k requires 0 <= k < |claims| => CutClaim(claims[k]))
  }

  /** The number of claims that the budget stores at most. */
  function Room(p: Pass): nat {
    if p.keep < MAX_CLAIMS then p.keep else MAX_CLAIMS
  }

  predicate Truncates(claims: seq<Claim>, p: Pass) {
    p.otherCut || CutClaims(claims) != claims || |claims| > Room(p)
  }

  /** The budget of the status cuts every statement, keeps a prefix of the claims, and reports what it did. */
  function Budgeted(s: Status, p: Pass): Status {
    var cut := CutClaims(s.claims);
    s.(claims := if |cut| > Room(p) then cut[..Room(p)] else cut,
       conditions := if Truncates(s.claims, p) then s.conditions.(degraded := Is(p, IsTrue)) else s.conditions)
  }

  /** What a pass that is not skipped asks the server to store. */
  function Next(s: Status, p: Pass): Status {
    var begun := Begun(s, p);
    if p.loopFailure.Some? then Budgeted(LoopPrevented(begun, p, p.loopFailure.value), p)
    else if p.invalid.Some? then Budgeted(Invalid(begun, p, p.invalid.value), p)
    else if p.gate.Some? && !p.gate.value.complete then Budgeted(GateInconclusive(begun, p), p)
    else if p.gate.Some? && p.gate.value.noIssueFound then Budgeted(GateNoIssue(begun, p), p)
    else Budgeted(Projected(Executed(begun, p), p), p)
  }

  /** The checkpoint that may be stored between the provider's answer and the end of the pass. */
  function Checkpointed(s: Status, p: Pass): Status {
    var begun := Begun(s, p);
    begun.(phase := ReasoningPhase,
           conditions := if p.otherCut then begun.conditions.(degraded := Is(p, IsTrue)) else begun.conditions)
  }

  // ----------------------------------------------------------------- the passes in place

  class Investigation {
    var status: Status

    constructor (status: Status)
      ensures this.status == status
    {
      this.status := status;
    }

    method SetCondition(kind: ConditionType, value: Tri, p: Pass)
      modifies this
      ensures status == old(status).(conditions := With(old(status).conditions, kind, Condition(value, p.generation)))
    {
      status := status.(conditions := With(status.conditions, kind, Condition(value, p.generation)));
    }

    method Begin(p: Pass)
      modifies this
      ensures status == Begun(old(status), p)
    {
      var restarting := status.observedGeneration != p.generation || Terminal(status.phase);
      status := status.(phase := Collecting);
      status := status.(observedGeneration := p.generation);
      if status.startedAt.None? || restarting {
        status := status.(startedAt := Some(p.now));
      }
      status := status.(completedAt := None);
      status := status.(outcome := NoOutcome);
      status := status.(failure := None);
      status := status.(confidence := 0.0);
      status := status.(claims := []);
      status := status.(linked := None);
    }

    method SetNotRunnable(p: Pass)
      modifies this
      ensures status == old(status).(conditions := NotRunnable(old(status).conditions, p))
    {
      SetCondition(DatasourceResolved, IsUnknown, p);
      SetCondition(QueryTypeSupported, IsUnknown, p);
      SetCondition(QueryPolicyReady, IsUnknown, p);
      SetCondition(EvidenceReady, IsUnknown, p);
    }

    method SetResolved(p: Pass)
      modifies this
      ensures status == old(status).(conditions := Resolved(old(status).conditions, p))
    {
      SetCondition(TargetResolved, IsTrue, p);
      SetCondition(DatasourceResolved, IsTrue, p);
      SetCondition(QueryTypeSupported, IsTrue, p);
      SetCondition(QueryPolicyReady, IsTrue, p);
    }

    method Block(code: string, target: Tri, p: Pass)
      modifies this
      ensures status == old(status).(
                phase := Failed, outcome := UnknownOutcome, failure := Some(code), completedAt := Some(p.now),
                conditions := Blocked(old(status).conditions, p, target))
    {
      status := status.(phase := Failed, outcome := UnknownOutcome, failure := Some(code), completedAt := Some(p.now));
      SetCondition(Ready, IsFalse, p);
      SetCondition(TargetResolved, target, p);
      SetNotRunnable(p);
      SetCondition(RCAReady, IsFalse, p);
      SetCondition(RemediationReady, IsFalse, p);
      SetCondition(Verified, IsUnknown, p);
      SetCondition(Degraded, IsFalse, p);
    }

    method Gated(noIssue: bool, p: Pass)
      modifies this
      ensures status == if noIssue then GateNoIssue(old(status), p) else GateInconclusive(old(status), p)
    {
      status := status.(phase := Completed, failure := None, confidence := 0.0, claims := [], completedAt := Some(p.now));
      status := status.(outcome := if noIssue then NoIssueFound else Inconclusive);
      SetResolved(p);
      SetCondition(EvidenceReady, Truth(noIssue), p);
      SetCondition(RCAReady, Truth(noIssue), p);
      SetCondition(Verified, if noIssue then IsTrue else IsUnknown, p);
      SetCondition(RemediationReady, IsFalse, p);
      SetCondition(Ready, IsTrue, p);
      SetCondition(Degraded, Truth(!noIssue), p);
    }

    method ReportStages(p: Pass)
      modifies this
      ensures status == old(status).(conditions := StageConditions(old(status).conditions, p))
    {
      var f := p.preflight;
      SetCondition(TargetResolved, if f.target.Some? then IsFalse else IsTrue, p);
      if f.datasource.Some? {
        SetCondition(DatasourceResolved, IsFalse, p);
        SetCondition(EvidenceReady, IsFalse, p);
      } else {
        SetCondition(DatasourceResolved, IsTrue, p);
        if f.provider.Some? {
          SetCondition(EvidenceReady, IsUnknown, p);
        } else if f.queryType.Some? {
          SetCondition(EvidenceReady, IsUnknown, p);
        } else if p.evidenceIssue.Some? {
          SetCondition(EvidenceReady, IsFalse, p);
        } else {
          SetCondition(EvidenceReady, IsTrue, p);
        }
      }
      if f.queryType.Some? {
        SetCondition(QueryTypeSupported, if f.queryType.value.policyRejected then IsTrue else IsFalse, p);
        SetCondition(QueryPolicyReady, if f.queryType.value.policyRejected then IsFalse else IsUnknown, p);
      } else if f.datasource.Some? {
        SetCondition(QueryTypeSupported, IsUnknown, p);
        SetCondition(QueryPolicyReady, IsUnknown, p);
      } else {
        SetCondition(QueryTypeSupported, IsTrue, p);
        SetCondition(QueryPolicyReady, IsTrue, p);
      }
      var failed := f.provider.Some? || p.evidenceIssue.Some? || p.rcaIssue.Some?;
      SetCondition(RCAReady, if failed then IsFalse else IsTrue, p);
    }

    method Fail(issue: Issue, resetVerified: bool, p: Pass)
      modifies this
      ensures status == Failing(old(status), p, issue, resetVerified)
    {
      status := status.(phase := Failed, outcome := UnknownOutcome, failure := Some(issue.code), confidence := 0.0);
      status := status.(completedAt := Some(p.now));
      SetCondition(Ready, IsFalse, p);
      SetCondition(Degraded, if issue.degrades then IsTrue else IsFalse, p);
      SetCondition(RemediationReady, IsFalse, p);
      if resetVerified {
        SetCondition(Verified, IsUnknown, p);
      }
    }

    method ApplyStructuredRCA(r: Verdict.Reasoning, p: Pass)
      modifies this
      ensures status == Judged(old(status), p, r)
    {
      var claims := BuildRCAClaims(p.findings, r);
      var evaluation := EvaluateCanonicalVerdict(r, claims, ScoreOf(r));
      status := status.(confidence := evaluation.confidence);
      status := status.(outcome := evaluation.outcome);
      status := status.(claims := claims);
    }

    method ApplyExecution(p: Pass)
      modifies this
      ensures status == Executed(old(status), p)
    {
      hide Evaluate, RootCauses, BuiltClaims, StageConditions;
      ReportStages(p);
      if FirstIssue(p.preflight).Some? {
        Fail(FirstIssue(p.preflight).value, true, p);
        return;
      }
      if p.evidenceIssue.Some? {
        Fail(p.evidenceIssue.value, false, p);
        return;
      }
      if p.rcaIssue.Some? {
        Fail(p.rcaIssue.value, false, p);
        return;
      }
      if p.reasoning.Some? {
        ApplyStructuredRCA(p.reasoning.value, p);
      }
      status := status.(completedAt := Some(p.now));
      if status.outcome == NoOutcome {
        status := status.(outcome := UnknownOutcome);
      }
      status := status.(failure := None);
      status := status.(phase := Completed);
      ReportOutcome(p);
    }

    method ReportOutcome(p: Pass)
      modifies this
      ensures status == old(status).(
                conditions := OutcomeConditions(old(status).conditions, p, old(status).outcome))
    {
      match status.outcome {
        case Confirmed =>
          SetCondition(RCAReady, IsTrue, p);
          SetCondition(Verified, IsTrue, p);
          SetCondition(RemediationReady, IsTrue, p);
          SetCondition(Ready, IsTrue, p);
        case Inconclusive =>
          SetCondition(RCAReady, IsFalse, p);
          SetCondition(Verified, IsFalse, p);
          SetCondition(RemediationReady, IsFalse, p);
          SetCondition(Ready, IsTrue, p);
        case _ =>
          SetCondition(RemediationReady, IsFalse, p);
          SetCondition(Ready, IsTrue, p);
      }
      SetCondition(Degraded, if p.evidenceDegraded then IsTrue else IsFalse, p);
    }

    method CutStatements() returns (truncated: bool)
      modifies this
      ensures status == old(status).(claims := CutClaims(old(status).claims))
      ensures truncated <==> CutClaims(old(status).claims) != old(status).claims
    {
      hide StatusBudget.Cut;
      ghost var whole := status.claims;
      truncated := false;
      for i := 0 to |status.claims|
        invariant |status.claims| == |whole| && status == old(status).(claims := status.claims)
        invariant forall k :: 0 <= k < i ==> status.claims[k] == CutClaim(whole[k])
        invariant forall k :: i <= k < |whole| ==> status.claims[k] == whole[k]
        invariant truncated <==> exists k :: 0 <= k < i && CutClaim(whole[k]) != whole[k]
      {
        var claim := status.claims[i];
        var cut, _, _, shortened := StatusBudget.TruncateUTF8(claim.statement, StatusBudget.MAX_CLAIM_STATEMENT_BYTES);
        status := status.(claims := status.claims[i := claim.(statement := cut)]);
        truncated := truncated || shortened;
      }
    }

    method ApplyBudget(p: Pass)
      modifies this
      ensures status == Budgeted(old(status), p)
    {
      hide StatusBudget.Cut;
      ghost var cut := CutClaims(status.claims);
      var truncated := CutStatements();
      truncated := truncated || p.otherCut;
      if |status.claims| > MAX_CLAIMS {
        status := status.(claims := status.claims[..MAX_CLAIMS]);
        truncated := true;
      }
      while |status.claims| > p.keep
        invariant |status.claims| <= |cut| && status == old(status).(claims := cut[..|status.claims|])
        invariant |status.claims| <= MAX_CLAIMS && (|status.claims| == |cut| || |status.claims| >= Room(p))
        invariant truncated <==> CutClaims(old(status).claims) != old(status).claims || p.otherCut || |status.claims| < |cut|
      {
        status := status.(claims := status.claims[..|status.claims| - 1]);
        truncated := true;
      }
      if truncated {
        SetCondition(Degraded, IsTrue, p);
      }
    }

    /** One pass; a request that is terminal for its generation is left alone. */
    method Reconcile(p: Pass)
      modifies this
      ensures status == if Skips(old(status), p.generation) then old(status) else Next(old(status), p)
    {
      hide Begun, Blocked, TargetCode, InvalidCode, GateNoIssue, GateInconclusive, Executed, Budgeted;
      if status.observedGeneration == p.generation && Terminal(status.phase) {
        return;
      }
      Begin(p);
      if p.loopFailure.Some? {
        Block(p.loopFailure.value, IsUnknown, p);
      } else if p.invalid.Some? {
        var code := InvalidCode(p.invalid.value);
        Block(code, if TargetCode(code) then IsFalse else IsUnknown, p);
      } else if p.gate.Some? && (!p.gate.value.complete || p.gate.value.noIssueFound) {
        Gated(p.gate.value.complete, p);
      } else {
        ApplyExecution(p);
        if p.reasoning.Some? && p.createRiskSignal && status.outcome == Confirmed {
          status := status.(linked := p.link);
        }
      }
      ApplyBudget(p);
    }
  }
}
