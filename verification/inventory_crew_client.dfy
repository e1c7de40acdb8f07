/** The inventory service's client for the crew service: fetching the available crew. */
module InventoryCrewClient {
  import opened Wrappers
  import opened Downstream
  import ErrorDetail
  import DockingInventoryClient

  const ServiceName: string := "crew-service"

  /** `getAvailableCrew`: the body exactly as returned, null included; any failure becomes a
      `CrewServiceException` from the crew service. */
  function GetAvailableCrew<M>(outcome: HttpOutcome<Option<seq<M>>>): (r: Result<Option<seq<M>>, ServiceException>)
    ensures r.Success? <==> outcome.Ok?
    ensures outcome.Ok? ==> r.value == outcome.body
    ensures r.Failure? ==> r.error.serviceName == ServiceName
    ensures outcome.HttpError? ==> r.error.message.Some? && r.error.message.value != []
    ensures outcome.HttpError? ==> r.error.message == Some(ErrorDetail.ExtractErrorDetail(outcome.responseBody))
    ensures outcome.OtherFailure? ==> r.error.message == outcome.message
  {
    match RaisedFor(ServiceName, outcome)
    case None => Success(outcome.body)
    case Some(e) => Failure(e)
  }

  /** The two list-fetching clients differ only on a null body, which the docking service's
      inventory client turns into an empty list and this client passes on as null; on every
      failure they raise the same message. */
  lemma NullBodyDiffersFromInventoryClient<M>(outcome: HttpOutcome<Option<seq<M>>>)
    ensures outcome == Ok(None) ==>
      GetAvailableCrew(outcome) == Success(None) && DockingInventoryClient.UnloadCargoForShip(outcome) == Success([])
    ensures outcome.Ok? && outcome.body.Some? ==>
      GetAvailableCrew(outcome) == Success(Some(DockingInventoryClient.UnloadCargoForShip(outcome).value))
    ensures !outcome.Ok? ==>
      GetAvailableCrew(outcome).error.message == DockingInventoryClient.UnloadCargoForShip(outcome).error.message
  {
  }
}
