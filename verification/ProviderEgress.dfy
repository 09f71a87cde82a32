/** What is sent to which provider along a fallback chain, and the audit that is reconstructed afterwards. */
module ProviderEgress {
  import opened Wrappers
  import opened Classification
  import opened Fallback
  import Text

  const OMITTED := "log sample omitted by provider data policy"

  predicate Hosted(providerType: string) {
    var kind := Text.ToLower(Text.TrimSpace(providerType));
    kind == "openai" || kind == "claude" || kind == "gemini"
  }

  function TrimSuffix(s: string, suffix: string): string {
    if |suffix| <= |s| && s[|s| - |suffix|..] == suffix then s[..|s| - |suffix|] else s
  }

  function NormalizeKind(kind: string): string {
    var plain := TrimSuffix(Text.ToLower(Text.TrimSpace(kind)), "observation");
    if plain == "kubernetesevent" then "event" else plain
  }

  /** A kind goes by its lower-case name, with or without observation at the end; a Kubernetes event is an event. */
  lemma KindsByName(kind: string, base: string)
    requires Text.ToLower(Text.TrimSpace(kind)) in {base, base + "observation"}
    requires !(|base| >= 11 && base[|base| - 11..] == "observation")
    ensures NormalizeKind(kind) == if base == "kubernetesevent" then "event" else base
  {
    assert (base + "observation")[|base|..] == "observation" && (base + "observation")[..|base|] == base;
  }

  predicate KindAllowed(kind: string, allowed: seq<string>) {
    allowed == [] || exists i :: 0 <= i < |allowed| && NormalizeKind(allowed[i]) == NormalizeKind(kind)
  }

  predicate IsLog(kind: string) {
    Text.ToLower(kind) == "log"
  }

  function Sanitized(ref: Ref, policy: DataPolicy): Ref {
    if IsLog(ref.kind) && !policy.allowLogSamples then ref.(summary := OMITTED, query := "", link := "") else ref
  }

  function Filtered(refs: seq<Ref>, policy: DataPolicy): seq<Ref> {
    if refs == [] then []
    else
      var last := refs[|refs| - 1];
      Filtered(refs[..|refs| - 1], policy)
      + (if KindAllowed(last.kind, policy.allowedKinds) then [Sanitized(last, policy)] else [])
  }

  method FilterEvidenceRefs(refs: seq<Ref>, policy: DataPolicy) returns (out: seq<Ref>)
    ensures out == Filtered(refs, policy)
  {
    hide NormalizeKind, IsLog;
    out := [];
    for i := 0 to |refs|
      invariant out == Filtered(refs[..i], policy)
    {
      assert refs[..i + 1][..i] == refs[..i];
      var ref := refs[i];
      var allowed := EvidenceKindAllowed(ref.kind, policy.allowedKinds);
      if !allowed {
        continue;
      }
      var filtered := ref;
      if IsLog(ref.kind) && !policy.allowLogSamples {
        filtered := filtered.(summary := OMITTED);
        filtered := filtered.(query := "");
        filtered := filtered.(link := "");
      }
      out := out + [filtered];
    }
    assert refs[..|refs|] == refs;
  }

  method EvidenceKindAllowed(kind: string, allowed: seq<string>) returns (ok: bool)
    ensures ok <==> KindAllowed(kind, allowed)
  {
    hide NormalizeKind;
    if |allowed| == 0 {
      return true;
    }
    var normalizedKind := NormalizeKind(kind);
    for i := 0 to |allowed|
      invariant forall j :: 0 <= j < i ==> NormalizeKind(allowed[j]) != normalizedKind
    {
      if NormalizeKind(allowed[i]) == normalizedKind {
        return true;
      }
    }
    return false;
  }

  /** The kind is on the list of allowed ones, in normal form; an empty list allows all. */
  predicate ListedKind(allowed: seq<string>, kind: string) {
    allowed == [] || NormalizeKind(kind) in set k | k in allowed :: NormalizeKind(k)
  }

  /** Each reference is kept or dropped by itself: kept if its kind is listed, and without its sample if that is a log's. */
  lemma {:induction false} FiltersEachReference(a: seq<Ref>, b: seq<Ref>, policy: DataPolicy)
    ensures Filtered(a + b, policy) == Filtered(a, policy) + Filtered(b, policy)
    ensures forall r: Ref :: Filtered([r], policy) ==
              if !ListedKind(policy.allowedKinds, r.kind) then []
              else if Text.ToLower(r.kind) == "log" && !policy.allowLogSamples then
                [Ref(r.id, r.kind, "log sample omitted by provider data policy", "", "", r.classification,
                     r.redactionProfile)]
              else [r]
  {
    hide NormalizeKind, Text.ToLower;
    forall r: Ref
      ensures KindAllowed(r.kind, policy.allowedKinds) <==> ListedKind(policy.allowedKinds, r.kind)
    {
      ListedIsAllowed(policy.allowedKinds, r.kind);
    }
    forall r: Ref
      ensures Filtered([r], policy) == if KindAllowed(r.kind, policy.allowedKinds) then [Sanitized(r, policy)] else []
    {
      assert [r][..0] == [];
    }
    if b == [] {
      assert a + b == a;
    } else {
      var front, last := b[..|b| - 1], b[|b| - 1];
      assert (a + b)[..|a + b| - 1] == a + front;
      FiltersEachReference(a, front, policy);
    }
  }

  lemma ListedIsAllowed(allowed: seq<string>, kind: string)
    ensures KindAllowed(kind, allowed) <==> ListedKind(allowed, kind)
  {
    hide NormalizeKind;
    if i :| 0 <= i < |allowed| && NormalizeKind(allowed[i]) == NormalizeKind(kind) {
      assert allowed[i] in allowed;
    }
  }

  /** What has been filtered for a policy passes the same filter unchanged. */
  lemma {:induction false} FilterIsIdempotent(refs: seq<Ref>, policy: DataPolicy)
    ensures Filtered(Filtered(refs, policy), policy) == Filtered(refs, policy)
  {
    hide NormalizeKind, IsLog, KindAllowed;
    if refs != [] {
      var front, last := refs[..|refs| - 1], refs[|refs| - 1];
      FilterIsIdempotent(front, policy);
      if KindAllowed(last.kind, policy.allowedKinds) {
        var whole := Filtered(front, policy) + [Sanitized(last, policy)];
        assert Filtered(refs, policy) == whole;
        assert whole[..|whole| - 1] == Filtered(front, policy) && whole[|whole| - 1] == Sanitized(last, policy);
        assert Filtered(whole, policy) == Filtered(Filtered(front, policy), policy) + [Sanitized(last, policy)];
      } else {
        assert Filtered(refs, policy) == Filtered(front, policy);
      }
    }
  }

  /** Nothing of the sample is left. */
  predicate Blanked(ref: Ref) {
    ref.summary == OMITTED && ref.query == "" && ref.link == ""
  }

  /** Every reference that counts as a log, by the form in which kinds are allowed, is blanked. */
  predicate LogsBlanked(refs: seq<Ref>) {
    forall k :: 0 <= k < |refs| && NormalizeKind(refs[k].kind) == "log" ==> Blanked(refs[k])
  }

  /** A reference that passes the filter as a log but is not recognized as one by its kind as written. */
  predicate Escapes(ref: Ref, policy: DataPolicy) {
    KindAllowed(ref.kind, policy.allowedKinds) && NormalizeKind(ref.kind) == "log" && !IsLog(ref.kind) && !Blanked(ref)
  }

  /** Without log samples, all logs that are sent are blanked exactly when none is written in another form. */
  lemma {:induction false} LogsBlankedExactlyWhen(refs: seq<Ref>, policy: DataPolicy)
    requires !policy.allowLogSamples
    ensures LogsBlanked(Filtered(refs, policy)) <==> forall k :: 0 <= k < |refs| ==> !Escapes(refs[k], policy)
  {
    hide NormalizeKind, IsLog, KindAllowed;
    if refs != [] {
      var front, last := refs[..|refs| - 1], refs[|refs| - 1];
      LogsBlankedExactlyWhen(front, policy);
      assert forall k :: 0 <= k < |front| ==> front[k] == refs[k];
      var kept, rest := Filtered(refs, policy), Filtered(front, policy);
      assert kept[..|rest|] == rest;
      assert forall k :: 0 <= k < |rest| ==> kept[k] == rest[k];
      if KindAllowed(last.kind, policy.allowedKinds) {
        assert kept[|rest|] == Sanitized(last, policy);
      }
    }
  }

  /** A log kind with a blank after it is such a form. */
  lemma TrailingBlankEscapes(ref: Ref, policy: DataPolicy)
    requires ref.kind == "log " && policy.allowedKinds == ["log"] && !policy.allowLogSamples && !Blanked(ref)
    ensures Escapes(ref, policy) && Filtered([ref], policy) == [ref]
  {
    hide Text.TrimSpace, Text.ToLower;
    assert Text.TrimSpace("log ") == "log" == Text.TrimSpace("log") by {
      assert "log" + " " == "log ";
      Text.TrimTrailingBlank("log");
      Text.TrimmedStays("log");
    }
    assert Text.ToLower("log") == "log" && |Text.ToLower("log ")| == 4;
    assert NormalizeKind("log ") == "log" == NormalizeKind("log");
    assert policy.allowedKinds[0] == "log" && [ref][..0] == [];
  }

  // ------------------------------------------------------------------- one provider

  /** The evidence kept for a provider, and why nothing may be sent to it. */
  function PolicyResult(defaults: Defaults, p: Provider, refs: seq<Ref>): (seq<Ref>, Option<ErrorReason>) {
    if !Hosted(p.providerType) then (refs, None)
    else if !p.policy.allowExternal then (refs, Some(ProviderDataPolicyDenied))
    else
      var filtered := Filtered(refs, p.policy);
      if Decide(defaults, p.policy, filtered) != Allowed then (filtered, Some(ProviderDataPolicyRejected))
      else (filtered, None)
  }

  function InputFor(defaults: Defaults, p: Provider, refs: seq<Ref>): Answer<seq<Ref>> {
    var (kept, issue) := PolicyResult(defaults, p, refs);
    if issue.Some? then Failure(Analyze(issue.value)) else Success(kept)
  }

  method ApplyProviderDataPolicy(defaults: Defaults, p: Provider, refs: seq<Ref>)
    returns (kept: seq<Ref>, issue: Option<ErrorReason>)
    ensures (kept, issue) == PolicyResult(defaults, p, refs)
  {
    hide Hosted, Filtered, Decide;
    if !Hosted(p.providerType) {
      return refs, None;
    }
    var filtered := FilterEvidenceRefs(refs, p.policy);
    if !p.policy.allowExternal {
      return refs, Some(ProviderDataPolicyDenied);
    }
    var reason, _ := EvaluateProviderPolicy(defaults, p.policy, filtered);
    if reason != Allowed {
      return filtered, Some(ProviderDataPolicyRejected);
    }
    return filtered, None;
  }

  // -------------------------------------------------------------------- the chain

  type EvidenceGateway<!R> = Gateway<seq<Ref>, R>

  /** The gateway builds its inputs from this evidence. */
  ghost predicate Feeds<R>(g: EvidenceGateway<R>, defaults: Defaults, refs: seq<Ref>) {
    forall p :: g.input(p) == InputFor(defaults, p, refs)
  }

  /** What the input function leaves behind for each provider of a chain. */
  function KeptBy(defaults: Defaults, refs: seq<Ref>, chain: seq<Attempt>): map<string, seq<Ref>> {
    if chain == [] then map[]
    else
      var last := chain[|chain| - 1].provider;
      KeptBy(defaults, refs, chain[..|chain| - 1])[ProviderKey(last) := PolicyResult(defaults, last, refs).0]
  }

  /** One analysis with the state that its recursive calls share. */
  class Analysis<!R> {
    var visited: set<string>
    var attempts: seq<Attempt>
    var providerEvidence: map<string, seq<Ref>>

    constructor ()
      ensures visited == {} && attempts == [] && providerEvidence == map[]
    {
      visited, attempts, providerEvidence := {}, [], map[];
    }

    method RecordAttempt(p: Provider, error: Option<Error>)
      modifies this`attempts
      ensures attempts == if |old(attempts)| >= MAX_TRACE_ATTEMPTS then old(attempts)
                          else old(attempts) + [Attempt(p, error)]
    {
      if |attempts| >= MAX_TRACE_ATTEMPTS {
        return;
      }
      attempts := attempts + [Attempt(p, error)];
    }

    /** Build the input of one provider, call it and record the attempt. */
    method TryProvider(g: EvidenceGateway<R>, defaults: Defaults, refs: seq<Ref>, p: Provider) returns (result: Answer<R>)
      requires Feeds(g, defaults, refs) && |attempts| <= MAX_TRACE_ATTEMPTS
      modifies this
      ensures result == Try(g, p) && visited == old(visited) + {ProviderKey(p)}
      ensures attempts == Shortened(old(attempts) + [AttemptOf(g, p)])
      ensures providerEvidence == old(providerEvidence) + KeptBy(defaults, refs, [AttemptOf(g, p)])
    {
      hide PolicyResult, KeptBy, Shortened, ProviderKey;
      visited := visited + {ProviderKey(p)};
      var kept, issue := ApplyProviderDataPolicy(defaults, p, refs);
      providerEvidence := providerEvidence[ProviderKey(p) := kept];
      assert g.input(p) == InputFor(defaults, p, refs);
      OneKept(defaults, refs, AttemptOf(g, p));
      result := if issue.Some? then Failure(Analyze(issue.value)) else g.call(p, kept);
      RecordAttempt(p, if result.Success? then None else Some(result.error));
      ShortenedOne(old(attempts), AttemptOf(g, p));
    }

    /** Try a provider, and on a failure that allows it the fallback it names. */
    method AnalyzeWithFallback(g: EvidenceGateway<R>, defaults: Defaults, refs: seq<Ref>, p: Provider)
      returns (answer: Answer<R>)
      requires Closed(g) && Feeds(g, defaults, refs) && |attempts| <= MAX_TRACE_ATTEMPTS
      modifies this
      ensures answer == Chain(g, p, old(visited)).1
      ensures attempts == Shortened(old(attempts) + Chain(g, p, old(visited)).0)
      ensures providerEvidence == old(providerEvidence) + KeptBy(defaults, refs, Chain(g, p, old(visited)).0)
      decreases |g.keys - visited|, if ProviderKey(p) in g.keys - visited then 0 else 1
    {
      hide Feeds, ShouldFallBack, Closed, Chain, NextProvider, KeptBy, Shortened, ProviderKey, Try, AttemptOf;
      ghost var seen, before, kept := visited, attempts, providerEvidence;
      var result := TryProvider(g, defaults, refs, p);
      if result.Success? || !ShouldFallBack(p, result.error) {
        ChainStops(g, p, seen);
        return result;
      }
      var next := NextProvider(g, p, visited);
      if next.Failure? {
        ChainStops(g, p, seen);
        return Failure(next.error);
      }
      ChainGoesOn(g, p, seen);
      NextIsCloser(g, p, seen, next.value);
      ShortenedAgain(before, AttemptOf(g, p), Chain(g, next.value, visited).0);
      KeptByJoin(defaults, refs, [AttemptOf(g, p)], Chain(g, next.value, visited).0);
      ShortenedBound(before + [AttemptOf(g, p)]);
      answer := AnalyzeWithFallback(g, defaults, refs, next.value);
    }
  }

  lemma ShortenedBound(attempts: seq<Attempt>)
    ensures |Shortened(attempts)| <= MAX_TRACE_ATTEMPTS
  {
  }

  function Shortened(attempts: seq<Attempt>): seq<Attempt> {
    if |attempts| > MAX_TRACE_ATTEMPTS then attempts[..MAX_TRACE_ATTEMPTS] else attempts
  }

  lemma ShortenedOne(before: seq<Attempt>, a: Attempt)
    requires |before| <= MAX_TRACE_ATTEMPTS
    ensures Shortened(before + [a]) == if |before| >= MAX_TRACE_ATTEMPTS then before else before + [a]
  {
    if |before| == MAX_TRACE_ATTEMPTS {
      assert (before + [a])[..MAX_TRACE_ATTEMPTS] == before;
    }
  }

  lemma ShortenedAgain(before: seq<Attempt>, a: Attempt, rest: seq<Attempt>)
    requires |before| <= MAX_TRACE_ATTEMPTS
    ensures Shortened(Shortened(before + [a]) + rest) == Shortened(before + ([a] + rest))
  {
    assert before + ([a] + rest) == (before + [a]) + rest;
    if |before| == MAX_TRACE_ATTEMPTS {
      assert Shortened(before + [a]) == before;
      assert (before + rest)[..MAX_TRACE_ATTEMPTS] == before;
      assert ((before + [a]) + rest)[..MAX_TRACE_ATTEMPTS] == before;
    }
  }

  lemma OneKept(defaults: Defaults, refs: seq<Ref>, a: Attempt)
    ensures KeptBy(defaults, refs, [a]) == map[ProviderKey(a.provider) := PolicyResult(defaults, a.provider, refs).0]
  {
    hide PolicyResult;
    assert [a][..0] == [];
    assert KeptBy(defaults, refs, []) == map[];
  }

  lemma {:induction false} KeptByJoin(defaults: Defaults, refs: seq<Ref>, a: seq<Attempt>, b: seq<Attempt>)
    ensures KeptBy(defaults, refs, a + b) == KeptBy(defaults, refs, a) + KeptBy(defaults, refs, b)
  {
    hide PolicyResult;
    if b == [] {
      assert a + b == a;
    } else {
      assert (a + b)[..|a + b| - 1] == a + b[..|b| - 1];
      KeptByJoin(defaults, refs, a, b[..|b| - 1]);
    }
  }

  // ------------------------------------------------------------------ the theorems

  /** No provider is tried twice, and none that had been visited before. */
  lemma {:induction false} ProvidersAreDistinct<I, R>(g: Gateway<I, R>, p: Provider, visited: set<string>)
    requires Closed(g) && ProviderKey(p) !in visited
    ensures var chain := Chain(g, p, visited).0;
            (forall k :: 0 <= k < |chain| ==> ProviderKey(chain[k].provider) !in visited)
            && forall k, l :: 0 <= k < l < |chain| ==> ProviderKey(chain[k].provider) != ProviderKey(chain[l].provider)
    decreases |g.keys - visited|, if ProviderKey(p) in g.keys - visited then 0 else 1
  {
    hide Closed, ProviderKey, Chain, ShouldFallBack, NextProvider, Try;
    var chain, seen := Chain(g, p, visited).0, visited + {ProviderKey(p)};
    if Try(g, p).Success? || !ShouldFallBack(p, Try(g, p).error) || NextProvider(g, p, seen).Failure? {
      ChainStops(g, p, visited);
    } else {
      ChainGoesOn(g, p, visited);
      var next := NextProvider(g, p, seen).value;
      NextIsCloser(g, p, visited, next);
      ProvidersAreDistinct(g, next, seen);
      ShiftedDistinct(AttemptOf(g, p), Chain(g, next, seen).0, visited);
    }
  }

  lemma ShiftedDistinct(first: Attempt, rest: seq<Attempt>, visited: set<string>)
    requires ProviderKey(first.provider) !in visited
    requires forall k :: 0 <= k < |rest| ==> ProviderKey(rest[k].provider) !in visited + {ProviderKey(first.provider)}
    requires forall k, l :: 0 <= k < l < |rest| ==> ProviderKey(rest[k].provider) != ProviderKey(rest[l].provider)
    ensures var chain := [first] + rest;
            (forall k :: 0 <= k < |chain| ==> ProviderKey(chain[k].provider) !in visited)
            && forall k, l :: 0 <= k < l < |chain| ==> ProviderKey(chain[k].provider) != ProviderKey(chain[l].provider)
  {
    hide ProviderKey;
  }

  /** Each attempt but the last failed in a way that allows a fallback, and the next is the fallback it resolved to. */
  lemma {:induction false} ChainFollowsFallbacks<I, R>(g: Gateway<I, R>, p: Provider, visited: set<string>, k: nat)
    requires Closed(g) && k < |Chain(g, p, visited).0|
    ensures var chain := Chain(g, p, visited).0;
            chain[k] == AttemptOf(g, chain[k].provider)
            && (k + 1 < |chain| ==>
                  chain[k].error.Some? && ShouldFallBack(chain[k].provider, chain[k].error.value)
                  && g.resolver.Some? && g.resolver.value(chain[k].provider) == Success(Some(chain[k + 1].provider)))
            && (k + 1 == |chain| ==> (chain[k].error.None? <==> Chain(g, p, visited).1.Success?))
    decreases k
  {
    hide Closed, ProviderKey, ShouldFallBack;
    var chain, seen := Chain(g, p, visited).0, visited + {ProviderKey(p)};
    if |chain| > 1 {
      var next := NextProvider(g, p, seen).value;
      NextIsCloser(g, p, visited, next);
      var rest := Chain(g, next, seen).0;
      assert chain == [AttemptOf(g, p)] + rest && rest[0].provider == next;
      if k > 0 {
        ChainFollowsFallbacks(g, next, seen, k - 1);
      }
    }
  }

  /** No provider that the chain has not seen yet is found for this one. */
  predicate NoFurther<I, R>(g: Gateway<I, R>, chain: seq<Attempt>, visited: set<string>, p: Provider) {
    g.resolver.None? || g.resolver.value(p).Failure? || g.resolver.value(p).value.None?
    || ProviderKey(g.resolver.value(p).value.value) in visited
    || exists j :: 0 <= j < |chain| && ProviderKey(chain[j].provider) == ProviderKey(g.resolver.value(p).value.value)
  }

  /**
    A chain goes on after each error that does not end it and stops at its last attempt because that succeeded, because
    of its error, or because no further provider is found.
   */
  lemma {:induction false} ChainEndsExactlyWhen<I, R>(g: Gateway<I, R>, p: Provider, visited: set<string>, k: nat)
    requires Closed(g) && k < |Chain(g, p, visited).0|
    ensures var chain := Chain(g, p, visited).0;
            k + 1 == |chain| <==>
            chain[k].error.None? || EndsTheChain(chain[k].provider, chain[k].error.value)
            || NoFurther(g, chain[..k + 1], visited, chain[k].provider)
    decreases k
  {
    hide Closed, ProviderKey, ShouldFallBack, EndsTheChain, Chain, Try;
    var chain, seen := Chain(g, p, visited).0, visited + {ProviderKey(p)};
    if Try(g, p).Failure? {
      FallsBackExactlyWhen(p, Try(g, p).error);
    }
    if Try(g, p).Success? || !ShouldFallBack(p, Try(g, p).error) || NextProvider(g, p, seen).Failure? {
      ChainStops(g, p, visited);
      assert chain[..1] == chain;
    } else {
      var next := NextProvider(g, p, seen).value;
      ChainGoesOn(g, p, visited);
      NextIsCloser(g, p, visited, next);
      var rest := Chain(g, next, seen).0;
      if k > 0 {
        ChainEndsExactlyWhen(g, next, seen, k - 1);
        SeenAlike(g, AttemptOf(g, p), rest[..k], visited, chain[k].provider);
        assert chain[..k + 1] == [AttemptOf(g, p)] + rest[..k];
      } else {
        assert chain[..1] == [AttemptOf(g, p)];
      }
    }
  }

  lemma SeenAlike<I, R>(g: Gateway<I, R>, first: Attempt, rest: seq<Attempt>, visited: set<string>, p: Provider)
    ensures NoFurther(g, [first] + rest, visited, p) <==> NoFurther(g, rest, visited + {ProviderKey(first.provider)}, p)
  {
    hide ProviderKey;
    var chain := [first] + rest;
    assert forall j :: 0 <= j < |rest| ==> chain[j + 1] == rest[j];
    assert chain[0] == first;
  }

  /** What may go out to a provider: anything if it is not one of the three hosted ones, filtered evidence otherwise. */
  lemma SentExactlyWhen<R>(g: EvidenceGateway<R>, defaults: Defaults, refs: seq<Ref>, p: Provider)
    requires Feeds(g, defaults, refs)
    ensures var hosted := Text.ToLower(Text.TrimSpace(p.providerType)) in {"openai", "claude", "gemini"};
            && (!hosted ==> g.input(p) == Success(refs))
            && (hosted ==>
                  (g.input(p).Success? <==>
                     p.policy.allowExternal && Decide(defaults, p.policy, Filtered(refs, p.policy)) == Allowed)
                  && (g.input(p).Success? ==> g.input(p).value == Filtered(refs, p.policy))
                  && (!p.policy.allowExternal ==> g.input(p) == Failure(Analyze(ProviderDataPolicyDenied)))
                  && (g.input(p).Failure? && p.policy.allowExternal ==>
                        g.input(p) == Failure(Analyze(ProviderDataPolicyRejected))))
  {
    hide Text.TrimSpace, Text.ToLower, Filtered, Decide;
    assert g.input(p) == InputFor(defaults, p, refs);
  }

  lemma {:induction false} KeptForEach(defaults: Defaults, refs: seq<Ref>, chain: seq<Attempt>, k: nat)
    requires k < |chain|
    requires forall i, j :: 0 <= i < j < |chain| ==> ProviderKey(chain[i].provider) != ProviderKey(chain[j].provider)
    ensures ProviderKey(chain[k].provider) in KeptBy(defaults, refs, chain)
    ensures KeptBy(defaults, refs, chain)[ProviderKey(chain[k].provider)] == PolicyResult(defaults, chain[k].provider, refs).0
  {
    hide PolicyResult, ProviderKey;
    var n := |chain| - 1;
    if k < n {
      KeptForEach(defaults, refs, chain[..n], k);
    }
  }

  /** The trace names this provider. */
  predicate Traced(trace: seq<Attempt>, p: Provider) {
    exists j :: 0 <= j < |trace| && ProviderKey(trace[j].provider) == ProviderKey(p)
  }

  lemma TracedExactlyWhen<R>(g: EvidenceGateway<R>, primary: Provider, k: nat)
    requires Closed(g) && k < |Chain(g, primary, {}).0|
    ensures var chain := Chain(g, primary, {}).0;
            Traced(Shortened(chain), chain[k].provider) <==> k < MAX_TRACE_ATTEMPTS
  {
    hide Closed, ProviderKey;
    var chain := Chain(g, primary, {}).0;
    ProvidersAreDistinct(g, primary, {});
    var trace := Shortened(chain);
    assert forall j :: 0 <= j < |trace| ==> trace[j] == chain[j];
    if k < MAX_TRACE_ATTEMPTS {
      assert trace[k] == chain[k];
    }
  }

  /**
    Every provider that was sent an input is in the trace, and so in the audit, exactly when none beyond the eighth
    attempt was; every provider that was tried is exactly when there were at most eight attempts.
   */
  lemma SentIsTracedExactlyWhen<R>(g: EvidenceGateway<R>, primary: Provider)
    requires Closed(g)
    ensures var chain := Chain(g, primary, {}).0;
            ((forall k :: 0 <= k < |chain| && g.input(chain[k].provider).Success? ==>
                Traced(Shortened(chain), chain[k].provider))
             <==> forall k :: MAX_TRACE_ATTEMPTS <= k < |chain| ==> g.input(chain[k].provider).Failure?)
            && ((forall k :: 0 <= k < |chain| ==> Traced(Shortened(chain), chain[k].provider))
                <==> |chain| <= MAX_TRACE_ATTEMPTS)
  {
    hide Closed, ProviderKey, Traced;
    var chain := Chain(g, primary, {}).0;
    forall k | 0 <= k < |chain|
      ensures Traced(Shortened(chain), chain[k].provider) <==> k < MAX_TRACE_ATTEMPTS
    {
      TracedExactlyWhen(g, primary, k);
    }
    if |chain| > MAX_TRACE_ATTEMPTS {
      assert !Traced(Shortened(chain), chain[MAX_TRACE_ATTEMPTS].provider);
    }
  }

  /** The references that the audit of an attempt digests; a provider that is not hosted has no audit. */
  function AuditedRefs(kept: map<string, seq<Ref>>, fallback: seq<Ref>, p: Provider): Option<seq<Ref>> {
    if !Hosted(p.providerType) then None
    else Some(Filtered(if ProviderKey(p) in kept then kept[ProviderKey(p)] else fallback, p.policy))
  }

  /**
    Every audited attempt names exactly the filtered evidence of its own provider: the references that its input was
    built from when one was built, and no other provider's.
   */
  lemma AuditTellsWhatWasSent<R>(
    g: EvidenceGateway<R>, defaults: Defaults, refs: seq<Ref>, primary: Provider, fallback: seq<Ref>, k: nat)
    requires Closed(g) && Feeds(g, defaults, refs)
    requires k < |Shortened(Chain(g, primary, {}).0)|
    ensures var chain := Chain(g, primary, {}).0;
            var p := Shortened(chain)[k].provider;
            var audited := AuditedRefs(KeptBy(defaults, refs, chain), fallback, p);
            (audited.Some? <==> Hosted(p.providerType))
            && (audited.Some? ==> audited.value == Filtered(refs, p.policy))
            && (audited.Some? && g.input(p).Success? ==> audited.value == g.input(p).value)
            && (audited.Some? ==>
                  (g.input(p).Success? <==>
                     p.policy.allowExternal && Decide(defaults, p.policy, audited.value) == Allowed))
  {
    hide Closed, ProviderKey, Hosted, Filtered, Decide;
    var chain := Chain(g, primary, {}).0;
    var p := Shortened(chain)[k].provider;
    assert Shortened(chain)[k] == chain[k];
    ProvidersAreDistinct(g, primary, {});
    KeptForEach(defaults, refs, chain, k);
    FilterIsIdempotent(refs, p.policy);
    assert g.input(p) == InputFor(defaults, p, refs);
  }
}
