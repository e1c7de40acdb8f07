/** The docking service's client for the inventory service: unloading a departing ship's
    cargo manifests. */
module DockingInventoryClient {
  import opened Wrappers
  import opened Downstream
  import ErrorDetail

  const ServiceName: string := "inventory-service"

  /** `unloadCargoForShip`: the list of unloaded manifests, with a null body read as the empty
      list; any failure becomes an `InventoryServiceException` from the inventory service. */
  function UnloadCargoForShip<M>(outcome: HttpOutcome<Option<seq<M>>>): (r: Result<seq<M>, ServiceException>)
    ensures r.Success? <==> outcome.Ok?
    ensures outcome == Ok(None) ==> r == Success([])
    ensures outcome.Ok? && outcome.body.Some? ==> r == Success(outcome.body.value)
    ensures r.Failure? ==> r.error.serviceName == ServiceName
    ensures outcome.HttpError? ==> r.error.message.Some? && r.error.message.value != []
    ensures outcome.HttpError? ==> r.error.message == Some(ErrorDetail.ExtractErrorDetail(outcome.responseBody))
    ensures outcome.OtherFailure? ==> r.error.message == outcome.message
  {
    match RaisedFor(ServiceName, outcome)
    case None => Success(if outcome.body.Some? then outcome.body.value else [])
    case Some(e) => Failure(e)
  }
}
