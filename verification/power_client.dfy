/** The docking service's client for the power service: it allocates power for a docking
    bay, releases it again, and turns failures into a `PowerAllocationException`. */
module DockingPowerClient {
  import opened Wrappers
  import opened JavaText
  import opened Downstream
  import ErrorDetail

  const ServiceName: string := "power-service"
  const SystemPrefix: string := "docking_bay_"
  /** The priority every docking allocation asks for. */
  const DockingPriority: int := 4

  /** The JSON map posted to `/api/power/allocate`. The requested kW value is passed through
      untouched. */
  datatype AllocationRequest = AllocationRequest(system: string, amountKw: Option<real>, priority: int)

  /** The JSON map posted to `/api/power/deallocate`. */
  datatype DeallocationRequest = DeallocationRequest(system: string)

  /** `AllocationResponse`: the power service's reply, passed back to the caller as-is. */
  datatype AllocationResponse = AllocationResponse(
    id: Option<int>, systemName: Option<string>, allocatedKw: Option<real>,
    priority: Option<int>, sectionId: Option<int>, message: Option<string>)

  /** The power-system name of a bay: `"docking_bay_" + bayId`, where a null id prints "null". */
  function SystemName(bayId: Option<int>): (s: string)
    ensures |s| > |SystemPrefix| && s[..|SystemPrefix|] == SystemPrefix
  {
    SystemPrefix + LongToString(bayId)
  }

  /** Different bays never share a power-system name, so one bay's deallocation cannot
      release another bay's allocation. */
  lemma SystemNameInjective(a: Option<int>, b: Option<int>)
    ensures SystemName(a) == SystemName(b) <==> a == b
  {
    if SystemName(a) == SystemName(b) {
      assert LongToString(a) == SystemName(a)[|SystemPrefix|..];
      assert LongToString(b) == SystemName(b)[|SystemPrefix|..];
      LongToStringInjective(a, b);
    }
  }

  /** The request `allocatePowerForBay` sends. */
  function AllocationRequestFor(bayId: Option<int>, amountKw: Option<real>): (req: AllocationRequest)
    ensures req.system == SystemName(bayId)
    ensures req.priority == DockingPriority && req.amountKw == amountKw
  {
    AllocationRequest(SystemName(bayId), amountKw, DockingPriority)
  }

  /** The request `deallocatePowerForBay` sends. */
  function DeallocationRequestFor(bayId: Option<int>): (req: DeallocationRequest)
    ensures req.system == SystemName(bayId)
  {
    DeallocationRequest(SystemName(bayId))
  }

  /** Deallocation names exactly the system an allocation for the same bay named, and no
      other bay's. */
  lemma DeallocationMatchesAllocation(bayId: Option<int>, other: Option<int>, amountKw: Option<real>)
    ensures DeallocationRequestFor(bayId).system == AllocationRequestFor(bayId, amountKw).system
    ensures DeallocationRequestFor(other).system == AllocationRequestFor(bayId, amountKw).system <==> other == bayId
  {
    SystemNameInjective(other, bayId);
  }

  /** `allocatePowerForBay`: the response (possibly null) when the call returns, otherwise a
      `PowerAllocationException` from the power service. */
  function AllocatePowerForBay(outcome: HttpOutcome<Option<AllocationResponse>>)
    : (r: Result<Option<AllocationResponse>, ServiceException>)
    ensures r.Success? <==> outcome.Ok?
    ensures outcome.Ok? ==> r.value == outcome.body
    ensures r.Failure? ==> r.error.serviceName == ServiceName
    ensures outcome.HttpError? ==> r.error.message.Some? && r.error.message.value != []
    ensures outcome.HttpError? ==> r.error.message == Some(ErrorDetail.ExtractErrorDetail(outcome.responseBody))
    ensures outcome.OtherFailure? ==> r.error.message == outcome.message
  {
    match RaisedFor(ServiceName, outcome)
    case None => Success(outcome.body)
    case Some(e) => Failure(e)
  }

  /** `deallocatePowerForBay`: failures are logged and swallowed, so no exception ever
      escapes, whatever the outcome. */
  function DeallocatePowerForBay(outcome: HttpOutcome<()>): (escaped: Option<ServiceException>)
    ensures escaped.None?
  {
    None
  }
}
