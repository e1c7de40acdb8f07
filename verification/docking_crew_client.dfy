/** The docking service's client for the crew service: registering the crew of an arriving
    ship. Unlike the other clients it never throws. */
module DockingCrewClient {
  import opened Wrappers
  import opened JavaText
  import opened ErrorDetail
  import opened Downstream

  const ServiceName: string := "crew-service"
  const RegisteredMessage: string := "Crew registered successfully"
  const FailurePrefix: string := "Failed to register crew: "

  /** `ArrivalResponse(success, message, crewRegistered)`. */
  datatype ArrivalResponse = ArrivalResponse(success: bool, message: string, crewRegistered: int)

  /** `registerArrival`: success reports every crew member as registered; any failure is
      reported, not thrown, with nobody registered and the failure text after a fixed prefix. */
  function RegisterArrival(crewCount: int, outcome: HttpOutcome<()>): (r: ArrivalResponse)
    ensures r.success <==> outcome.Ok?
    ensures r.success ==> r.message == RegisteredMessage && r.crewRegistered == crewCount
    ensures !r.success ==> r.crewRegistered == 0
    ensures !r.success ==>
      (|r.message| >= |FailurePrefix| && r.message[..|FailurePrefix|] == FailurePrefix
       && r.message[|FailurePrefix|..] == FailureText(outcome))
  {
    match outcome
    case Ok(_) => ArrivalResponse(true, RegisteredMessage, crewCount)
    case _ => ArrivalResponse(false, FailurePrefix + FailureText(outcome), 0)
  }

  /** A caller can tell the two results apart by the message alone: a failure message is
      never the success message, and after an HTTP error it always names a non-empty detail. */
  lemma ArrivalMessagesDistinct(crewCount: int, outcome: HttpOutcome<()>)
    ensures RegisterArrival(crewCount, outcome).success <==>
      RegisterArrival(crewCount, outcome).message == RegisteredMessage
    ensures outcome.HttpError? ==> |RegisterArrival(crewCount, outcome).message| > |FailurePrefix|
  {
    var r := RegisterArrival(crewCount, outcome);
    if !r.success {
      assert r.message[..|FailurePrefix|] == FailurePrefix;
      assert RegisteredMessage[..|FailurePrefix|] != FailurePrefix by {
        assert RegisteredMessage[0] == 'C' != FailurePrefix[0];
      }
    }
  }

  /** An HTTP error with an empty or missing body is reported as an unknown error. */
  lemma ArrivalWithoutErrorBody(crewCount: int)
    ensures RegisterArrival(crewCount, HttpError(None)).message == FailurePrefix + UnknownError
    ensures RegisterArrival(crewCount, HttpError(Some([]))).message == FailurePrefix + UnknownError
  {
  }
}
