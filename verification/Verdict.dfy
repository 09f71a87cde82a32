/** The claims of an investigation and the canonical verdict on them. */
module Verdict {
  import opened Wrappers
  import Text

  datatype Verification = Supported | Contradicted | Unverified

  datatype Claim = Claim(statement: string, mechanism: bool, verification: Verification)

  datatype Outcome = NoOutcome | Confirmed | Inconclusive | NoIssueFound | UnknownOutcome

  /** What a provider returned: a summary, causes and a score out of a hundred. */
  datatype Reasoning = Reasoning(riskSummary: string, causes: seq<string>, score: nat)

  /**
    What the evidence adds and how statements are judged: a claim of the evidence profile, the scheduling mechanism
    claim of an investigation without a profile, which statements are about that mechanism, and the verifier.
   */
  datatype Findings = Findings(
    profileClaim: Option<string>, mechanismClaim: Option<string>, aboutMechanism: string -> bool,
    verify: string -> Verification)

  datatype Evaluation = Evaluation(outcome: Outcome, confidence: real, verifiedScore: real)

  predicate Blank(s: string) {
    Text.TrimSpace(s) == ""
  }

  function ClaimOf(f: Findings, statement: string): Claim {
    Claim(statement, f.aboutMechanism(statement), f.verify(statement))
  }

  function MechanismClaimOf(f: Findings, statement: string): Claim {
    Claim(statement, true, f.verify(statement))
  }

  /** The claims of the non-blank causes, in order. */
  function CauseClaims(f: Findings, causes: seq<string>): seq<Claim> {
    if causes == [] then []
    else
      CauseClaims(f, causes[..|causes| - 1])
      + (if Blank(causes[|causes| - 1]) then [] else [ClaimOf(f, causes[|causes| - 1])])
  }

  function EvidenceClaims(f: Findings): seq<Claim> {
    (if f.profileClaim.Some? then [ClaimOf(f, f.profileClaim.value)] else [])
    + (if f.mechanismClaim.Some? then [MechanismClaimOf(f, f.mechanismClaim.value)] else [])
  }

  function BuiltClaims(f: Findings, r: Reasoning): seq<Claim> {
    (if Blank(r.riskSummary) then [] else [ClaimOf(f, r.riskSummary)]) + CauseClaims(f, r.causes) + EvidenceClaims(f)
  }

  method BuildRCAClaims(f: Findings, r: Reasoning) returns (claims: seq<Claim>)
    ensures claims == BuiltClaims(f, r)
  {
    hide Blank;
    claims := [];
    if !Blank(r.riskSummary) {
      claims := claims + [ClaimOf(f, r.riskSummary)];
    }
    ghost var start := claims;
    for i := 0 to |r.causes|
      invariant claims == start + CauseClaims(f, r.causes[..i])
    {
      assert r.causes[..i + 1][..i] == r.causes[..i];
      if Blank(r.causes[i]) {
        continue;
      }
      claims := claims + [ClaimOf(f, r.causes[i])];
    }
    assert r.causes[..|r.causes|] == r.causes;
    if f.profileClaim.Some? {
      claims := claims + [ClaimOf(f, f.profileClaim.value)];
    }
    if f.mechanismClaim.Some? {
      claims := claims + [MechanismClaimOf(f, f.mechanismClaim.value)];
    }
  }

  function NotMechanism(claims: seq<Claim>): seq<Claim> {
    if claims == [] then []
    else
      NotMechanism(claims[..|claims| - 1])
      + (if claims[|claims| - 1].mechanism then [] else [claims[|claims| - 1]])
  }

  /** The root-cause claims: the first claim is left out when there is a summary, and so is the scheduling mechanism. */
  function RootCauses(r: Reasoning, claims: seq<Claim>): seq<Claim> {
    var start := if Blank(r.riskSummary) then 0 else 1;
    if start >= |claims| then [] else NotMechanism(claims[start..])
  }

  method RootCauseClaims(r: Reasoning, claims: seq<Claim>) returns (filtered: seq<Claim>)
    ensures filtered == RootCauses(r, claims)
  {
    hide Blank;
    if |claims| == 0 {
      return [];
    }
    var start := 0;
    if !Blank(r.riskSummary) {
      start := 1;
    }
    if start >= |claims| {
      return [];
    }
    filtered := [];
    var rest := claims[start..];
    for i := 0 to |rest|
      invariant filtered == NotMechanism(rest[..i])
    {
      assert rest[..i + 1][..i] == rest[..i];
      if rest[i].mechanism {
        continue;
      }
      filtered := filtered + [rest[i]];
    }
    assert rest[..|rest|] == rest;
  }

  function Count(claims: seq<Claim>, v: Verification): nat {
    if claims == [] then 0
    else Count(claims[..|claims| - 1], v) + (if claims[|claims| - 1].verification == v then 1 else 0)
  }

  method CountVerified(claims: seq<Claim>) returns (supported: nat, contradicted: nat)
    ensures supported == Count(claims, Supported) && contradicted == Count(claims, Contradicted)
  {
    supported, contradicted := 0, 0;
    for i := 0 to |claims|
      invariant supported == Count(claims[..i], Supported) && contradicted == Count(claims[..i], Contradicted)
    {
      assert claims[..i + 1][..i] == claims[..i];
      match claims[i].verification
      case Supported => supported := supported + 1;
      case Contradicted => contradicted := contradicted + 1;
      case Unverified =>
    }
    assert claims[..|claims|] == claims;
  }

  function VerifiedScore(causal: seq<Claim>, provider: real): real {
    var score := if causal == [] then 0.0 else Count(causal, Supported) as real / |causal| as real;
    if score > provider then provider else score
  }

  function Evaluate(causal: seq<Claim>, provider: real): Evaluation {
    if causal == [] || Count(causal, Supported) == 0 || Count(causal, Contradicted) > 0
    then Evaluation(Inconclusive, 0.0, 0.0)
    else Evaluation(Confirmed, VerifiedScore(causal, provider), VerifiedScore(causal, provider))
  }

  method EvaluateCanonicalVerdict(r: Reasoning, claims: seq<Claim>, provider: real) returns (e: Evaluation)
    ensures e == Evaluate(RootCauses(r, claims), provider)
  {
    var causalClaims := RootCauseClaims(r, claims);
    var supported, contradicted := CountVerified(causalClaims);
    var verifiedScore := 0.0;
    if |causalClaims| > 0 {
      verifiedScore := supported as real / |causalClaims| as real;
    }
    if verifiedScore > provider {
      verifiedScore := provider;
    }
    e := Evaluation(Confirmed, verifiedScore, verifiedScore);
    if |causalClaims| == 0 || supported == 0 || contradicted > 0 {
      e := e.(outcome := Inconclusive);
      e := e.(confidence := 0.0);
      e := e.(verifiedScore := 0.0);
    }
  }

  // ------------------------------------------------------------------------ theorems

  lemma {:induction false} CountIsPositive(claims: seq<Claim>, v: Verification)
    ensures Count(claims, v) <= |claims|
    ensures Count(claims, v) > 0 <==> exists k :: 0 <= k < |claims| && claims[k].verification == v
  {
    if claims != [] {
      var front, n := claims[..|claims| - 1], |claims| - 1;
      CountIsPositive(front, v);
      assert forall k :: 0 <= k < n ==> front[k] == claims[k];
    }
  }

  lemma {:induction false} NotMechanismMembers(claims: seq<Claim>, c: Claim)
    ensures c in NotMechanism(claims) <==> c in claims && !c.mechanism
  {
    if claims != [] {
      assert claims == claims[..|claims| - 1] + [claims[|claims| - 1]];
      NotMechanismMembers(claims[..|claims| - 1], c);
    }
  }

  lemma {:induction false} CauseClaimsMembers(f: Findings, causes: seq<string>, c: Claim)
    ensures c in CauseClaims(f, causes) <==> exists i :: 0 <= i < |causes| && !Blank(causes[i]) && c == ClaimOf(f, causes[i])
  {
    hide Blank;
    if causes != [] {
      var front, n := causes[..|causes| - 1], |causes| - 1;
      CauseClaimsMembers(f, front, c);
      assert forall k :: 0 <= k < n ==> front[k] == causes[k];
    }
  }

  /** A statement that may be a root cause: a non-blank cause of the provider or the claim of the evidence profile. */
  predicate Proposed(f: Findings, r: Reasoning, statement: string) {
    !f.aboutMechanism(statement)
    && (f.profileClaim == Some(statement)
        || exists i :: 0 <= i < |r.causes| && !Blank(r.causes[i]) && r.causes[i] == statement)
  }

  lemma EvidenceClaimsMembers(f: Findings, c: Claim)
    ensures c in EvidenceClaims(f) <==>
            (f.profileClaim.Some? && c == ClaimOf(f, f.profileClaim.value))
            || (f.mechanismClaim.Some? && c == MechanismClaimOf(f, f.mechanismClaim.value))
  {
  }

  lemma RootCausesDropTheSummary(f: Findings, r: Reasoning)
    ensures RootCauses(r, BuiltClaims(f, r)) == NotMechanism(CauseClaims(f, r.causes) + EvidenceClaims(f))
  {
    hide Blank, CauseClaims, EvidenceClaims;
    var rest := CauseClaims(f, r.causes) + EvidenceClaims(f);
    var start := if Blank(r.riskSummary) then 0 else 1;
    assert BuiltClaims(f, r)[start..] == rest;
    assert NotMechanism([]) == [];
  }

  /** Neither the summary nor the scheduling mechanism is a root cause; everything else that was proposed is. */
  lemma RootCausesAreTheProposed(f: Findings, r: Reasoning, c: Claim)
    ensures c in RootCauses(r, BuiltClaims(f, r)) <==> Proposed(f, r, c.statement) && c == ClaimOf(f, c.statement)
  {
    hide Blank, CauseClaims, EvidenceClaims, NotMechanism, RootCauses, BuiltClaims;
    RootCausesDropTheSummary(f, r);
    NotMechanismMembers(CauseClaims(f, r.causes) + EvidenceClaims(f), c);
    CauseClaimsMembers(f, r.causes, c);
    EvidenceClaimsMembers(f, c);
  }

  /** Confirmed exactly when some proposed cause is supported by the verifier and none is contradicted. */
  lemma ConfirmedExactlyWhen(f: Findings, r: Reasoning, provider: real)
    ensures Evaluate(RootCauses(r, BuiltClaims(f, r)), provider).outcome == Confirmed <==>
            (exists s :: Proposed(f, r, s) && f.verify(s) == Supported)
            && (forall s :: Proposed(f, r, s) ==> f.verify(s) != Contradicted)
  {
    hide Proposed, BuiltClaims, RootCauses;
    var causal := RootCauses(r, BuiltClaims(f, r));
    CountIsPositive(causal, Supported);
    CountIsPositive(causal, Contradicted);
    forall k | 0 <= k < |causal|
      ensures Proposed(f, r, causal[k].statement) && causal[k].verification == f.verify(causal[k].statement)
    {
      assert causal[k] in causal;
      RootCausesAreTheProposed(f, r, causal[k]);
    }
    forall s | Proposed(f, r, s)
      ensures exists k :: 0 <= k < |causal| && causal[k].verification == f.verify(s)
    {
      RootCausesAreTheProposed(f, r, ClaimOf(f, s));
      var k :| 0 <= k < |causal| && causal[k] == ClaimOf(f, s);
    }
  }

  /** The verdict never claims more confidence than the provider's, and none unless it is confirmed. */
  lemma ConfidenceIsBounded(causal: seq<Claim>, provider: real)
    requires provider >= 0.0
    ensures var e := Evaluate(causal, provider);
            0.0 <= e.confidence <= provider && e.confidence <= 1.0
            && (e.outcome != Confirmed ==> e.confidence == 0.0)
            && (e.outcome == Confirmed && provider > 0.0 ==> e.confidence > 0.0)
  {
    CountIsPositive(causal, Supported);
    if causal != [] {
      var n, k := |causal| as real, Count(causal, Supported) as real;
      RatioIsBounded(k, n);
    }
  }

  lemma RatioIsBounded(k: real, n: real)
    requires 0.0 <= k <= n && n > 0.0
    ensures 0.0 <= k / n <= 1.0 && (k > 0.0 ==> k / n > 0.0)
  {
    assert k / n * n == k;
  }

  /** The positions of the claims that count, and of those among them with this verification. */
  function CountedPositions(claims: seq<Claim>): set<nat> {
    set k: nat | k < |claims| && !claims[k].mechanism
  }

  function VerifiedPositions(claims: seq<Claim>, v: Verification): set<nat> {
    set k: nat | k < |claims| && !claims[k].mechanism && claims[k].verification == v
  }

  lemma CountedNext(front: seq<Claim>, c: Claim)
    ensures |CountedPositions(front + [c])| == |CountedPositions(front)| + (if c.mechanism then 0 else 1)
  {
    var n, before, after := |front|, CountedPositions(front), CountedPositions(front + [c]);
    forall k: nat
      ensures k in after <==> k in before || (k == n && !c.mechanism)
    {
      assert k < n ==> (front + [c])[k] == front[k];
    }
    if c.mechanism {
      assert after == before;
    } else {
      assert after == before + {n} && n !in before;
    }
  }

  lemma VerifiedNext(front: seq<Claim>, c: Claim, v: Verification)
    ensures |VerifiedPositions(front + [c], v)|
         == |VerifiedPositions(front, v)| + (if !c.mechanism && c.verification == v then 1 else 0)
  {
    var n, before, after := |front|, VerifiedPositions(front, v), VerifiedPositions(front + [c], v);
    forall k: nat
      ensures k in after <==> k in before || (k == n && !c.mechanism && c.verification == v)
    {
      assert k < n ==> (front + [c])[k] == front[k];
    }
    if !c.mechanism && c.verification == v {
      assert after == before + {n} && n !in before;
    } else {
      assert after == before;
    }
  }

  lemma CountNext(claims: seq<Claim>, c: Claim, v: Verification)
    ensures Count(claims + [c], v) == Count(claims, v) + (if c.verification == v then 1 else 0)
  {
    assert (claims + [c])[..|claims|] == claims;
  }

  lemma {:induction false} NotMechanismCounts(claims: seq<Claim>, v: Verification)
    ensures |NotMechanism(claims)| == |CountedPositions(claims)|
    ensures Count(NotMechanism(claims), v) == |VerifiedPositions(claims, v)|
  {
    if claims != [] {
      hide CountedPositions, VerifiedPositions, Count;
      var front, last := claims[..|claims| - 1], claims[|claims| - 1];
      assert claims == front + [last];
      NotMechanismCounts(front, v);
      CountedNext(front, last);
      VerifiedNext(front, last, v);
      assert NotMechanism(front) + [] == NotMechanism(front);
      CountNext(NotMechanism(front), last, v);
    }
  }

  /**
    The confidence of a confirmed verdict is the share of supported ones among the claims that count, or the provider's
    if that is less; the first claim is the summary, if there is one, and does not count.
   */
  lemma ConfidenceIsTheShare(r: Reasoning, claims: seq<Claim>, provider: real)
    requires !Blank(r.riskSummary) ==> claims != []
    ensures var e := Evaluate(RootCauses(r, claims), provider);
            var rest := if Blank(r.riskSummary) then claims else claims[1..];
            var n, m := |CountedPositions(rest)|, |VerifiedPositions(rest, Supported)|;
            (e.outcome == Confirmed <==> m > 0 && VerifiedPositions(rest, Contradicted) == {})
            && (e.outcome == Confirmed ==>
                  n > 0 && e.verifiedScore == e.confidence
                  && (m as real / n as real <= provider ==> e.confidence == m as real / n as real)
                  && (m as real / n as real > provider ==> e.confidence == provider))
            && (e.outcome != Confirmed ==> e == Evaluation(Inconclusive, 0.0, 0.0))
  {
    hide Blank, NotMechanism, Count;
    var rest := if Blank(r.riskSummary) then claims else claims[1..];
    NotMechanismCounts(rest, Supported);
    NotMechanismCounts(rest, Contradicted);
    CountIsPositive(NotMechanism(rest), Supported);
    NothingIsKept();
  }

  lemma NothingIsKept()
    ensures NotMechanism([]) == []
  {
  }
}
