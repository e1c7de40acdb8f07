/** `DockResult`: the outcome of a docking request as the docking service reports it. */
module DockResults {
  import opened Wrappers

  /** The record's fields; Java's nullable `Long` and `String` become `Option`. */
  datatype DockResult = DockResult(
    success: bool, bayId: Option<int>, shipId: Option<int>, message: Option<string>,
    downstreamService: Option<string>, innerError: Option<string>)
  {
    /** `isDownstreamError`: the failure was caused by another service. */
    predicate IsDownstreamError() {
      downstreamService.Some?
    }
  }

  /** `DockResult.success`. */
  function DockSuccess(bayId: Option<int>, shipId: Option<int>, message: Option<string>): (r: DockResult)
    ensures r.success && r.bayId == bayId && r.shipId == shipId && r.message == message
    ensures r.downstreamService.None? && r.innerError.None?
  {
    DockResult(true, bayId, shipId, message, None, None)
  }

  /** `DockResult.failure`. */
  function DockFailure(shipId: Option<int>, message: Option<string>): (r: DockResult)
    ensures !r.success && r.bayId.None? && r.shipId == shipId && r.message == message
    ensures r.downstreamService.None? && r.innerError.None?
  {
    DockResult(false, None, shipId, message, None, None)
  }

  /** `DockResult.downstreamFailure`. */
  function DownstreamFailure(shipId: Option<int>, message: Option<string>, downstreamService: Option<string>,
                             innerError: Option<string>): (r: DockResult)
    ensures !r.success && r.bayId.None? && r.shipId == shipId && r.message == message
    ensures r.downstreamService == downstreamService && r.innerError == innerError
  {
    DockResult(false, None, shipId, message, downstreamService, innerError)
  }

  /** The results the three factories can build. */
  ghost predicate FactoryBuilt(r: DockResult) {
    (exists b, s, m :: r == DockSuccess(b, s, m)) ||
    (exists s, m :: r == DockFailure(s, m)) ||
    (exists s, m, d, e :: r == DownstreamFailure(s, m, d, e))
  }

  /** Only `downstreamFailure` yields a downstream error, and it does exactly when it is given
      a non-null service name. A factory-built result with a bay is a success. */
  lemma DownstreamErrorClassification(r: DockResult)
    requires FactoryBuilt(r)
    ensures r.IsDownstreamError() ==> !r.success && r.bayId.None?
    ensures r.success ==> !r.IsDownstreamError() && r.innerError.None?
    ensures r.bayId.Some? ==> r.success
    ensures r.innerError.Some? ==> !r.success
  {
  }

  /** `isDownstreamError` of each factory's result. */
  lemma FactoryDownstreamError(b: Option<int>, s: Option<int>, m: Option<string>, d: Option<string>, e: Option<string>)
    ensures !DockSuccess(b, s, m).IsDownstreamError()
    ensures !DockFailure(s, m).IsDownstreamError()
    ensures DownstreamFailure(s, m, d, e).IsDownstreamError() <==> d.Some?
  {
  }
}
