/** Errors of the LLM subsystem (`LlmError`). */
module LlmErrors {
  import opened Ints

  datatype LlmError =
    | ProviderNotFound(providerId: string)
    | NoProviderAvailable
    | ProviderError(provider: string, message: string)
    | ApiError(provider: string, status: uint16, message: string)
    | RateLimitExceeded(provider: string, message: string)
    | AuthenticationFailed(provider: string, message: string)
    | InvalidRequest(reason: string)
    | ParseError(provider: string, message: string)
    | PiiBlocked(details: string)
    | Network(reason: string)
    | Serialization(reason: string)
    | Timeout(seconds: uint64)
    | Internal(reason: string)
}
