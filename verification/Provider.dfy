/**
 * The provider contract (src/types/provider.ts): the error taxonomy every adapter maps to, and the
 * assessment that decides whether a failed request is proved not to have run remotely.
 */
module Provider {
  import opened Wrappers

  datatype ProviderId = OpenAI | Anthropic | Google | DeepSeek

  datatype ErrorKind = RateLimited | TimedOut | InvalidRequest | Auth | Overloaded | UnknownKind

  datatype RemoteOutcome = ClaimsNotExecuted | OutcomeUnknown

  datatype ProviderError = ProviderError(
    provider: ProviderId,
    kind: ErrorKind,
    message: string,
    remoteOutcome: RemoteOutcome)
  {
    predicate Retryable() {
      kind in {RateLimited, Overloaded, TimedOut}
    }
  }

  /** The error constructor: an adapter may claim an outcome, otherwise the kind decides. */
  function MakeError(provider: ProviderId, kind: ErrorKind, message: string, claim: Option<RemoteOutcome> := None): ProviderError {
    var outcome :=
      match claim
      case Some(o) => o
      case None => if kind in {Auth, RateLimited, InvalidRequest} then ClaimsNotExecuted else OutcomeUnknown;
    ProviderError(provider, kind, message, outcome)
  }

  /** What a provider's contract documents about errors that prove non-execution. */
  datatype Guarantee = Unsupported | ErrorKinds(kinds: set<ErrorKind>, basis: string)

  datatype UnknownReason = AmbiguousOutcome | UnsupportedProof | ProviderMismatch

  datatype Assessment = NotExecuted(basis: string) | Unknown(reason: UnknownReason)

  function AssessProviderErrorOutcome(id: ProviderId, guarantee: Guarantee, error: ProviderError): Assessment {
    if error.provider != id then Unknown(ProviderMismatch)
    else if !error.remoteOutcome.ClaimsNotExecuted? then Unknown(AmbiguousOutcome)
    else if !guarantee.ErrorKinds? || error.kind !in guarantee.kinds then Unknown(UnsupportedProof)
    else NotExecuted(guarantee.basis)
  }

  /** Usage is two counters; laws about usage hold for each of them. */
  datatype Meter = InputMeter | OutputMeter

  datatype TokenUsage = TokenUsage(inputTokens: nat, outputTokens: nat) {
    function On(meter: Meter): nat {
      if meter.InputMeter? then inputTokens else outputTokens
    }

    function Plus(other: TokenUsage): TokenUsage {
      TokenUsage(inputTokens + other.inputTokens, outputTokens + other.outputTokens)
    }
  }

  function NoUsage(): TokenUsage {
    TokenUsage(0, 0)
  }

  datatype AgentResponse = AgentResponse(
    provider: ProviderId,
    model: string,
    text: string,
    usage: TokenUsage,
    stopReason: string,
    latencyMs: nat)
}
