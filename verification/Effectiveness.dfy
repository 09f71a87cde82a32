/** The verdict on an executed action: what the health of the target says about it, and when it may be given. */
module EffectivenessEvaluation {
  import opened Wrappers
  import opened AgentActions
  import Text

  datatype InvestigationOutcome = NoIssueFound | Confirmed | InconclusiveFinding | UnknownFinding | OtherFinding

  const DEADLINE_EXCEEDED := "progressdeadlineexceeded"

  const NO_CONDITION := HealthCondition(OtherCondition(""), OtherStatus(""), "")

  predicate Down(c: HealthCondition) {
    (c.kind.Available? || c.kind.Progressing?) && c.status.ConditionFalse?
  }

  predicate IsHealthy(h: Health) {
    h.desiredReplicas <= 0
    || (h.availableReplicas >= h.desiredReplicas && h.readyReplicas >= h.desiredReplicas
        && h.updatedReplicas >= h.desiredReplicas
        && !(h.generation > 0 && h.observedGeneration < h.generation)
        && forall i :: 0 <= i < |h.conditions| ==> !Down(h.conditions[i]))
  }

  predicate Improved(baseline: Health, post: Health) {
    (IsHealthy(post) && !IsHealthy(baseline))
    || post.availableReplicas > baseline.availableReplicas || post.readyReplicas > baseline.readyReplicas
    || post.updatedReplicas > baseline.updatedReplicas
  }

  /** The condition recorded last for a type, which is what a map filled in order keeps. */
  function LastOfKind(cs: seq<HealthCondition>, kind: ConditionType): (r: HealthCondition)
    ensures r in cs || r == NO_CONDITION
  {
    if cs == [] then NO_CONDITION
    else if cs[|cs| - 1].kind == kind then cs[|cs| - 1]
    else LastOfKind(cs[..|cs| - 1], kind)
  }

  predicate ExceededDeadline(c: HealthCondition) {
    Text.ToLower(c.reason) == DEADLINE_EXCEEDED
  }

  /** A condition that turned bad after the baseline. */
  predicate NewlyBad(before: seq<HealthCondition>, c: HealthCondition) {
    (c.kind.Available? && c.status.ConditionFalse? && !LastOfKind(before, c.kind).status.ConditionFalse?)
    || (c.kind.Progressing? && c.status.ConditionFalse? && ExceededDeadline(c)
        && !ExceededDeadline(LastOfKind(before, c.kind)))
  }

  predicate Regression(baseline: Health, post: Health) {
    post.availableReplicas < baseline.availableReplicas || post.readyReplicas < baseline.readyReplicas
    || post.updatedReplicas < baseline.updatedReplicas
    || exists i :: 0 <= i < |post.conditions| && NewlyBad(baseline.conditions, post.conditions[i])
  }

  /** The loop of the regression check, over a map filled in the order of the baseline's conditions. */
  method MateriallyRegressed(baseline: Health, post: Health) returns (regressed: bool)
    ensures regressed <==> Regression(baseline, post)
  {
    if post.availableReplicas < baseline.availableReplicas || post.readyReplicas < baseline.readyReplicas
       || post.updatedReplicas < baseline.updatedReplicas {
      return true;
    }
    var baselineConditions: map<ConditionType, HealthCondition> := map[];
    for i := 0 to |baseline.conditions|
      invariant forall kind ::
        (if kind in baselineConditions then baselineConditions[kind] else NO_CONDITION)
        == LastOfKind(baseline.conditions[..i], kind)
    {
      assert baseline.conditions[..i + 1][..i] == baseline.conditions[..i];
      baselineConditions := baselineConditions[baseline.conditions[i].kind := baseline.conditions[i]];
    }
    assert baseline.conditions[..|baseline.conditions|] == baseline.conditions;
    for i := 0 to |post.conditions|
      invariant forall j :: 0 <= j < i ==> !NewlyBad(baseline.conditions, post.conditions[j])
    {
      var c := post.conditions[i];
      var before := if c.kind in baselineConditions then baselineConditions[c.kind] else NO_CONDITION;
      assert before == LastOfKind(baseline.conditions, c.kind);
      if c.kind.Available? && c.status.ConditionFalse? && !before.status.ConditionFalse? {
        return true;
      }
      if c.kind.Progressing? && c.status.ConditionFalse? && ExceededDeadline(c) && !ExceededDeadline(before) {
        return true;
      }
    }
    return false;
  }

  method HealthIsHealthy(snapshot: Health) returns (healthy: bool)
    ensures healthy <==> IsHealthy(snapshot)
  {
    var desired := snapshot.desiredReplicas;
    if desired <= 0 {
      return true;
    }
    if snapshot.availableReplicas < desired || snapshot.readyReplicas < desired || snapshot.updatedReplicas < desired {
      return false;
    }
    if snapshot.generation > 0 && snapshot.observedGeneration < snapshot.generation {
      return false;
    }
    for i := 0 to |snapshot.conditions|
      invariant forall j :: 0 <= j < i ==> !Down(snapshot.conditions[j])
    {
      if snapshot.conditions[i].kind.Available? && snapshot.conditions[i].status.ConditionFalse? {
        return false;
      }
      if snapshot.conditions[i].kind.Progressing? && snapshot.conditions[i].status.ConditionFalse? {
        return false;
      }
    }
    return true;
  }

  /** The decision over baseline, observed health and the finding of the verification investigation. */
  function Evaluate(baseline: Option<Baseline>, post: Option<Health>, finding: Option<InvestigationOutcome>)
    : EffectivenessOutcome
  {
    if baseline.None? || baseline.value.health.None? || finding.None? || post.None? then Inconclusive
    else
      var before, after := baseline.value.health.value, post.value;
      if after.desiredReplicas != before.desiredReplicas then Inconclusive
      else if Regression(before, after) then Regressed
      else match finding.value
        case NoIssueFound =>
          if !IsHealthy(after) then Ineffective
          else if !Improved(before, after) then Inconclusive
          else Effective
        case Confirmed => Ineffective
        case _ => Inconclusive
  }

  /** Health that counts as strictly better, field by field. */
  ghost predicate StrictlyBetter(before: Health, after: Health) {
    after.availableReplicas >= before.availableReplicas && after.readyReplicas >= before.readyReplicas
    && after.updatedReplicas >= before.updatedReplicas
    && (after.availableReplicas > before.availableReplicas || after.readyReplicas > before.readyReplicas
        || after.updatedReplicas > before.updatedReplicas || (IsHealthy(after) && !IsHealthy(before)))
  }

  /** Effective is exactly: same intent, no issue found, healthy now, nothing worse and something strictly better. */
  lemma EffectiveExactlyWhen(baseline: Option<Baseline>, post: Option<Health>, finding: Option<InvestigationOutcome>)
    ensures Evaluate(baseline, post, finding) == Effective <==>
            baseline.Some? && baseline.value.health.Some? && post.Some? && finding == Some(NoIssueFound)
            && post.value.desiredReplicas == baseline.value.health.value.desiredReplicas
            && IsHealthy(post.value)
            && StrictlyBetter(baseline.value.health.value, post.value)
            && forall i :: 0 <= i < |post.value.conditions| ==>
                 !NewlyBad(baseline.value.health.value.conditions, post.value.conditions[i])
  {
  }

  /** A target is not healthy exactly for too few replicas, an unobserved generation or a bad condition. */
  lemma UnhealthyExactlyWhen(h: Health)
    ensures !IsHealthy(h) <==>
            h.desiredReplicas > 0
            && (h.availableReplicas < h.desiredReplicas || h.readyReplicas < h.desiredReplicas
                || h.updatedReplicas < h.desiredReplicas
                || (h.observedGeneration < h.generation && h.generation > 0)
                || exists i :: 0 <= i < |h.conditions| && h.conditions[i].kind in {Available, Progressing}
                               && h.conditions[i].status == ConditionFalse)
  {
  }

  /** The last condition of its type stands at k. */
  ghost predicate LastAt(cs: seq<HealthCondition>, kind: ConditionType, k: int) {
    0 <= k < |cs| && cs[k].kind == kind && forall j :: k < j < |cs| ==> cs[j].kind != kind
  }

  lemma LastInFront(cs: seq<HealthCondition>, kind: ConditionType, k: int)
    requires LastAt(cs, kind, k) && cs[|cs| - 1].kind != kind
    ensures k < |cs| - 1 && LastAt(cs[..|cs| - 1], kind, k)
  {
  }

  lemma {:induction false} LastOfKindIsLast(cs: seq<HealthCondition>, kind: ConditionType)
    ensures forall k :: LastAt(cs, kind, k) ==> LastOfKind(cs, kind) == cs[k]
    ensures (forall k :: 0 <= k < |cs| ==> cs[k].kind != kind) ==> LastOfKind(cs, kind) == NO_CONDITION
  {
    if cs != [] && cs[|cs| - 1].kind != kind {
      hide LastAt;
      var front := cs[..|cs| - 1];
      LastOfKindIsLast(front, kind);
      forall k | LastAt(cs, kind, k)
        ensures LastOfKind(cs, kind) == cs[k]
      {
        LastInFront(cs, kind, k);
      }
    }
  }

  lemma {:induction false} HasALast(cs: seq<HealthCondition>, kind: ConditionType, i: nat) returns (k: nat)
    requires i < |cs| && cs[i].kind == kind
    ensures LastAt(cs, kind, k)
    decreases |cs|
  {
    if cs[|cs| - 1].kind == kind {
      k := |cs| - 1;
    } else {
      k := HasALast(cs[..|cs| - 1], kind, i);
    }
  }

  /**
    A condition turned bad exactly when Available is False and was not at last in the baseline, or Progressing is False
    for an exceeded deadline and was not at last for that reason.
   */
  lemma NewlyBadExactlyWhen(before: seq<HealthCondition>, c: HealthCondition)
    ensures NewlyBad(before, c) <==>
            c.status == ConditionFalse
            && ((c.kind == Available
                 && forall k :: LastAt(before, Available, k) ==> before[k].status != ConditionFalse)
                || (c.kind == Progressing && Text.ToLower(c.reason) == "progressdeadlineexceeded"
                    && forall k :: LastAt(before, Progressing, k) ==>
                         Text.ToLower(before[k].reason) != "progressdeadlineexceeded"))
  {
    hide LastOfKind, LastAt, Text.ToLower;
    LastOfKindIsLast(before, c.kind);
    NothingExceeds();
    if i :| 0 <= i < |before| && before[i].kind == c.kind {
      var k := HasALast(before, c.kind, i);
      forall l | LastAt(before, c.kind, l)
        ensures l == k
      {
        OneLast(before, c.kind, k, l);
      }
    } else {
      forall l
        ensures !LastAt(before, c.kind, l)
      {
        LastIsOfKind(before, c.kind, l);
      }
    }
  }

  lemma OneLast(cs: seq<HealthCondition>, kind: ConditionType, k: int, l: int)
    requires LastAt(cs, kind, k) && LastAt(cs, kind, l)
    ensures k == l
  {
  }

  lemma LastIsOfKind(cs: seq<HealthCondition>, kind: ConditionType, l: int)
    ensures LastAt(cs, kind, l) ==> 0 <= l < |cs| && cs[l].kind == kind
  {
  }

  lemma NothingExceeds()
    ensures !ExceededDeadline(NO_CONDITION)
  {
    assert |Text.ToLower("")| == 0;
  }

  /** Enough is known to judge: a baseline with health, the health now, a finding, and the same intent. */
  predicate Comparable(baseline: Option<Baseline>, post: Option<Health>, finding: Option<InvestigationOutcome>) {
    baseline.Some? && baseline.value.health.Some? && post.Some? && finding.Some?
    && post.value.desiredReplicas == baseline.value.health.value.desiredReplicas
  }

  /** Something got worse: fewer replicas of some kind, or a condition that turned bad. */
  predicate Worse(before: Health, after: Health) {
    after.availableReplicas < before.availableReplicas || after.readyReplicas < before.readyReplicas
    || after.updatedReplicas < before.updatedReplicas
    || exists i :: 0 <= i < |after.conditions| && NewlyBad(before.conditions, after.conditions[i])
  }

  /** The other verdicts, each exactly when. */
  lemma VerdictsExactlyWhen(baseline: Option<Baseline>, post: Option<Health>, finding: Option<InvestigationOutcome>)
    ensures var e := Evaluate(baseline, post, finding);
            var comparable := Comparable(baseline, post, finding);
            && (e == Regressed <==> comparable && Worse(baseline.value.health.value, post.value))
            && (e == Ineffective <==>
                  comparable && !Worse(baseline.value.health.value, post.value)
                  && (finding.value == Confirmed || (finding.value == NoIssueFound && !IsHealthy(post.value))))
            && (e == Inconclusive <==>
                  !comparable
                  || (!Worse(baseline.value.health.value, post.value)
                      && (finding.value in {InconclusiveFinding, UnknownFinding, OtherFinding}
                          || (finding.value == NoIssueFound && IsHealthy(post.value)
                              && !StrictlyBetter(baseline.value.health.value, post.value)))))
            && e != NoEffectivenessOutcome
  {
  }

  /** A scaled-to-zero target is healthy whatever its conditions say, yet a condition that turned bad still regresses. */
  lemma ZeroReplicasCanStillRegress(baseline: Baseline, post: Health, i: nat, finding: Option<InvestigationOutcome>)
    requires baseline.health.Some? && post.desiredReplicas == baseline.health.value.desiredReplicas == 0
    requires i < |post.conditions| && NewlyBad(baseline.health.value.conditions, post.conditions[i])
    requires finding.Some?
    ensures IsHealthy(post) && Evaluate(Some(baseline), Some(post), finding) == Regressed
  {
  }
}
