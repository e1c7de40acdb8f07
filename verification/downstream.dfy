/** What a service client sees of one outgoing RestClient call, and the typed exception
    the clients raise when the call fails. */
module Downstream {
  import opened Wrappers
  import opened JavaText
  import opened ErrorDetail

  /** The result of `restClient....retrieve()`:
      - `Ok`: the call returned; `body` is what `.body(...)` produced (the bodiless calls use `()`);
      - `HttpError`: an `HttpServerErrorException` or `HttpClientErrorException`, with the
        response body text (`None` for a null body);
      - `OtherFailure`: any other exception, with its `getMessage()` (possibly null). */
  datatype HttpOutcome<+T> =
    | Ok(body: T)
    | HttpError(responseBody: Option<string>)
    | OtherFailure(message: Option<string>)

  /** `PowerAllocationException`, `InventoryServiceException`, `LifeSupportAdjustmentException`,
      `CrewServiceException`: a runtime exception carrying the downstream service's name and
      a message that may be null. */
  datatype ServiceException = ServiceException(serviceName: string, message: Option<string>)

  /** The exception a throwing client raises for an outcome: none for `Ok`; for an HTTP
      error, the extracted detail; for anything else, the original message unchanged. */
  function RaisedFor<T>(serviceName: string, outcome: HttpOutcome<T>): (e: Option<ServiceException>)
    ensures e.None? <==> outcome.Ok?
    ensures e.Some? ==> e.value.serviceName == serviceName
    ensures outcome.HttpError? ==> e.value.message.Some? && e.value.message.value != []
    ensures outcome.HttpError? && (outcome.responseBody.None? || outcome.responseBody == Some([])) ==>
      e.value.message == Some(UnknownError)
    ensures outcome.HttpError? ==> e.value.message == Some(ExtractErrorDetail(outcome.responseBody))
    ensures outcome.OtherFailure? ==> e.value.message == outcome.message
  {
    match outcome
    case Ok(_) => None
    case HttpError(body) => Some(ServiceException(serviceName, Some(ExtractErrorDetail(body))))
    case OtherFailure(message) => Some(ServiceException(serviceName, message))
  }

  /** The text a caller logging or concatenating a failure sees: the extracted detail for an
      HTTP error, `getMessage()` rendered with `null` for anything else. */
  function FailureText<T>(outcome: HttpOutcome<T>): (t: string)
    requires !outcome.Ok?
    ensures outcome.HttpError? ==> t == ExtractErrorDetail(outcome.responseBody) && t != []
    ensures outcome.OtherFailure? && outcome.message.Some? ==> t == outcome.message.value
    ensures outcome.OtherFailure? && outcome.message.None? ==> t == "null"
  {
    match outcome
    case HttpError(body) => ExtractErrorDetail(body)
    case OtherFailure(message) => StringOrNull(message)
  }
}
