/**
  The provider fallback chain of the model gateway, the evidence filter of a provider's data policy, and the egress
  audit that is reconstructed from the trace of the chain.
 */
module Fallback {
  import opened Wrappers
  import opened Classification
  import Text

  datatype Provider = Provider(
    namespace: string, name: string, providerType: string, fallbackName: string, policy: DataPolicy)

  datatype ErrorReason =
    | ProviderUnavailable
    | ProviderUnsupported
    | ProviderDataPolicyDenied
    | ProviderDataPolicyRejected
    | ProviderAuthFailed
    | ProviderRateLimited
    | ProviderRequestInvalid
    | InvalidProviderResponse
    | APIKeyMissing
    | SecretRefMissing
    | SecretReaderUnavailable
    | SecretReadFailed
    | SecretNotFound
    | SecretKeyMissing
    | SecretValueEmpty
    | ProviderRequestFailed
    | ResolverUnavailable
    | ProviderFallbackLoop
    | OtherReason(text: string)

  /** An error of the gateway's own kind carries a reason; any other error ends the chain. */
  datatype Error = Analyze(reason: ErrorReason) | Foreign

  datatype Attempt = Attempt(provider: Provider, error: Option<Error>)

  datatype Answer<+R> = Success(value: R) | Failure(error: Error)

  const MAX_TRACE_ATTEMPTS := 8

  function ProviderKey(p: Provider): (key: string)
    ensures key != ""
  {
    p.namespace + "/" + p.name
  }

  /**
    What surrounds the gateway: the input built for a provider, the call to it, the resolution of its fallback, and the
    keys of all providers that exist.
   */
  datatype Gateway<!I, !R> = Gateway(
    input: Provider -> Answer<I>, call: (Provider, I) -> Answer<R>, resolver: Option<Provider -> Answer<Option<Provider>>>,
    keys: set<string>)

  /** Resolution finds only providers that exist. */
  ghost predicate Closed<I, R>(g: Gateway<I, R>) {
    g.resolver.Some? ==>
      forall p :: g.resolver.value(p).Success? && g.resolver.value(p).value.Some? ==>
        ProviderKey(g.resolver.value(p).value.value) in g.keys
  }

  predicate ShouldFallBack(p: Provider, error: Error) {
    Text.TrimSpace(p.fallbackName) != "" && error.Analyze?
    && match error.reason
       case ProviderUnavailable => true
       case ProviderUnsupported => true
       case ProviderDataPolicyDenied => true
       case ProviderAuthFailed => true
       case ProviderRateLimited => true
       case ProviderRequestInvalid => true
       case InvalidProviderResponse => true
       case APIKeyMissing => true
       case SecretRefMissing => true
       case SecretReaderUnavailable => true
       case SecretReadFailed => true
       case SecretNotFound => true
       case SecretKeyMissing => true
       case SecretValueEmpty => true
       case _ => false
  }

  /** What ends a chain: no fallback is named, the error is not the gateway's own, or one of its reasons that stay. */
  predicate EndsTheChain(p: Provider, error: Error) {
    Text.TrimSpace(p.fallbackName) == ""
    || error.Foreign?
    || error.reason in {ProviderDataPolicyRejected, ProviderRequestFailed, ResolverUnavailable, ProviderFallbackLoop}
    || error.reason.OtherReason?
  }

  lemma FallsBackExactlyWhen(p: Provider, error: Error)
    ensures ShouldFallBack(p, error) <==> !EndsTheChain(p, error)
  {
    hide Text.TrimSpace;
  }

  function NextProvider<I, R>(g: Gateway<I, R>, p: Provider, visited: set<string>): Answer<Provider> {
    if g.resolver.None? then Failure(Analyze(ResolverUnavailable))
    else
      match g.resolver.value(p)
      case Failure(error) => Failure(error)
      case Success(None) => Failure(Analyze(ProviderUnavailable))
      case Success(Some(fallback)) =>
        if ProviderKey(fallback) in visited then Failure(Analyze(ProviderFallbackLoop)) else Success(fallback)
  }

  /** Each way not to find a further provider has its own error, and what is found is new. */
  lemma ResolvesExactlyWhen<I, R>(g: Gateway<I, R>, p: Provider, visited: set<string>)
    ensures g.resolver.None? ==> NextProvider(g, p, visited) == Failure(Analyze(ResolverUnavailable))
    ensures g.resolver.Some? ==>
              && (g.resolver.value(p) == Success(None) ==>
                    NextProvider(g, p, visited) == Failure(Analyze(ProviderUnavailable)))
              && (g.resolver.value(p).Failure? ==> NextProvider(g, p, visited) == Failure(g.resolver.value(p).error))
              && (g.resolver.value(p).Success? && g.resolver.value(p).value.Some? ==>
                    var found := g.resolver.value(p).value.value;
                    NextProvider(g, p, visited)
                    == if ProviderKey(found) in visited then Failure(Analyze(ProviderFallbackLoop)) else Success(found))
  {
  }

  /** One provider is tried: its input is built and, if that succeeds, it is called. */
  function Try<I, R>(g: Gateway<I, R>, p: Provider): Answer<R> {
    match g.input(p)
    case Failure(error) => Failure(error)
    case Success(input) => g.call(p, input)
  }

  function AttemptOf<I, R>(g: Gateway<I, R>, p: Provider): Attempt {
    Attempt(p, if Try(g, p).Success? then None else Some(Try(g, p).error))
  }

  /** The whole chain of attempts from a provider on, with its answer. */
  function Chain<I, R>(g: Gateway<I, R>, p: Provider, visited: set<string>): (r: (seq<Attempt>, Answer<R>))
    requires Closed(g)
    ensures r.0 != [] && r.0[0] == AttemptOf(g, p)
    decreases |g.keys - visited|, if ProviderKey(p) in g.keys - visited then 0 else 1
  {
    var seen := visited + {ProviderKey(p)};
    var tried := Try(g, p);
    if tried.Success? then ([AttemptOf(g, p)], tried)
    else if !ShouldFallBack(p, tried.error) then ([AttemptOf(g, p)], tried)
    else
      match NextProvider(g, p, seen)
      case Failure(error) => ([AttemptOf(g, p)], Failure(error))
      case Success(next) =>
        NextIsCloser(g, p, visited, next);
        var rest := Chain(g, next, seen);
        ([AttemptOf(g, p)] + rest.0, rest.1)
  }

  /** A resolved fallback is one of the providers not yet visited. */
  lemma NextIsCloser<I, R>(g: Gateway<I, R>, p: Provider, visited: set<string>, next: Provider)
    requires Closed(g) && NextProvider(g, p, visited + {ProviderKey(p)}) == Success(next)
    ensures ProviderKey(next) in g.keys - (visited + {ProviderKey(p)})
    ensures |g.keys - (visited + {ProviderKey(p)})| <= |g.keys - visited|
    ensures ProviderKey(p) in g.keys - visited ==>
              |g.keys - (visited + {ProviderKey(p)})| < |g.keys - visited|
  {
    var before, after := g.keys - visited, g.keys - (visited + {ProviderKey(p)});
    assert after == before - {ProviderKey(p)};
  }

  /** Where a chain ends after its first attempt. */
  lemma ChainStops<I, R>(g: Gateway<I, R>, p: Provider, visited: set<string>)
    requires Closed(g)
    requires Try(g, p).Success? || !ShouldFallBack(p, Try(g, p).error)
             || NextProvider(g, p, visited + {ProviderKey(p)}).Failure?
    ensures Chain(g, p, visited).0 == [AttemptOf(g, p)]
    ensures Chain(g, p, visited).1 ==
            if Try(g, p).Success? || !ShouldFallBack(p, Try(g, p).error) then Try(g, p)
            else Failure(NextProvider(g, p, visited + {ProviderKey(p)}).error)
  {
    hide Closed, ShouldFallBack, NextProvider, Try;
  }

  /** How a chain goes on after its first attempt. */
  lemma ChainGoesOn<I, R>(g: Gateway<I, R>, p: Provider, visited: set<string>)
    requires Closed(g) && Try(g, p).Failure? && ShouldFallBack(p, Try(g, p).error)
    requires NextProvider(g, p, visited + {ProviderKey(p)}).Success?
    ensures var seen := visited + {ProviderKey(p)};
            var next := NextProvider(g, p, seen).value;
            Chain(g, p, visited).0 == [AttemptOf(g, p)] + Chain(g, next, seen).0
            && Chain(g, p, visited).1 == Chain(g, next, seen).1
  {
    hide Closed, ShouldFallBack, NextProvider, Try;
  }
}
