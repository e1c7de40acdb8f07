/** The crew service's client for the life-support service: adjusting a section's occupancy. */
module CrewLifeSupportClient {
  import opened Wrappers
  import opened Downstream
  import ErrorDetail

  const ServiceName: string := "life-support-service"

  /** `adjustCapacity`: returns normally after a successful call; otherwise the
      `LifeSupportAdjustmentException` it throws. */
  function AdjustCapacity(outcome: HttpOutcome<()>): (thrown: Option<ServiceException>)
    ensures thrown.None? <==> outcome.Ok?
    ensures thrown.Some? ==> thrown.value.serviceName == ServiceName
    ensures outcome.HttpError? ==> thrown.value.message.Some? && thrown.value.message.value != []
    ensures outcome.HttpError? ==> thrown.value.message == Some(ErrorDetail.ExtractErrorDetail(outcome.responseBody))
    ensures outcome.OtherFailure? ==> thrown.value.message == outcome.message
  {
    RaisedFor(ServiceName, outcome)
  }
}
