/** What the dashboard pages see of a call through their API client: the awaited promise
    either resolves or rejects. */
module ApiCalls {

  /** The value a rejected promise carries: an `Error` with its message, or anything else. */
  datatype Thrown = ErrorObject(message: string) | NonError

  datatype ApiResult<+T> = Resolved(value: T) | Rejected(thrown: Thrown)

  /** `err instanceof Error ? err.message : fallback`. */
  function ErrorText(thrown: Thrown, fallback: string): (text: string)
    ensures thrown.ErrorObject? ==> text == thrown.message
    ensures thrown.NonError? ==> text == fallback
  {
    match thrown
    case ErrorObject(message) => message
    case NonError => fallback
  }
}
