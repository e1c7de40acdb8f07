/** The dashboard's `ErrorAlert` component: how an API error is classified and shown, and
    the "copied" flag of its copy-trace-ID button. */
module Alerts {
  import opened Wrappers

  /** `ErrorInfo`: the message, a trace ID that may be null, and an optional HTTP status. */
  datatype ErrorInfo = ErrorInfo(message: string, traceId: Option<string>, status: Option<int>)

  datatype Palette = Amber | Red
  datatype Icon = AlertCircle | AlertTriangle
  /** The icon of the copy button: a check mark while `copied` is set. */
  datatype CopyIcon = CopyGlyph | CheckGlyph

  /** The trace-ID row: the ID and the copy button's icon. */
  datatype TraceRow = TraceRow(traceId: string, button: CopyIcon)

  /** What the component renders, apart from markup and styling. */
  datatype AlertView = AlertView(
    palette: Palette, icon: Icon, message: string, traceRow: Option<TraceRow>, dismissButton: bool)

  /** `isUserError`: `status && status >= 400 && status < 500`, where a missing status and 0
      are falsy. */
  predicate IsUserError(status: Option<int>) {
    status.Some? && status.value != 0 && status.value >= 400 && status.value < 500
  }

  /** `isSystemError`. */
  predicate IsSystemError(status: Option<int>) {
    !IsUserError(status)
  }

  /** A trace ID is truthy when it is neither null nor empty. */
  predicate HasTraceId(traceId: Option<string>) {
    traceId.Some? && traceId.value != []
  }

  /** The rendered alert for `error`, given whether `onDismiss` was supplied and the current
      value of `copied`. */
  function Render(error: ErrorInfo, hasDismiss: bool, copied: bool): (v: AlertView)
    ensures v.message == error.message
    ensures v.palette == Amber <==> error.status.Some? && 400 <= error.status.value < 500
    ensures v.icon == AlertCircle <==> v.palette == Amber
    ensures v.traceRow.Some? <==> v.palette == Red && HasTraceId(error.traceId)
    ensures v.traceRow.Some? ==>
      v.traceRow.value.traceId == error.traceId.value && (v.traceRow.value.button == CheckGlyph <==> copied)
    ensures v.dismissButton <==> hasDismiss
  {
    var user := IsUserError(error.status);
    AlertView(
      if user then Amber else Red,
      if user then AlertCircle else AlertTriangle,
      error.message,
      if !user && HasTraceId(error.traceId)
      then Some(TraceRow(error.traceId.value, if copied then CheckGlyph else CopyGlyph))
      else None,
      hasDismiss)
  }

  /** A 409 conflict is a user error: amber, no trace row, even with a trace ID. */
  lemma ConflictIsUserError(message: string, traceId: string, copied: bool)
    ensures Render(ErrorInfo(message, Some(traceId), Some(409)), false, copied).palette == Amber
    ensures Render(ErrorInfo(message, Some(traceId), Some(409)), false, copied).traceRow.None?
  {
  }

  /** A 503, a status of 0 and a missing status are all system errors, which show a non-empty
      trace ID. */
  lemma UnavailableIsSystemError(message: string, traceId: string, copied: bool)
    requires traceId != []
    ensures forall st :: st in [Some(503), Some(0), None] ==>
      Render(ErrorInfo(message, Some(traceId), st), false, copied).palette == Red &&
      Render(ErrorInfo(message, Some(traceId), st), false, copied).traceRow == Some(TraceRow(traceId, if copied then CheckGlyph else CopyGlyph))
  {
  }

  /** One mounted `ErrorAlert`. `pendingResets` counts the `setTimeout` callbacks scheduled
      by successful copies that have not fired yet; `dismissCalls` counts calls of `onDismiss`. */
  class ErrorAlert {
    const error: ErrorInfo
    const hasDismiss: bool
    var copied: bool
    var pendingResets: nat
    var dismissCalls: nat

    /** While the check mark shows, a reset to the copy icon is on its way. */
    ghost predicate Valid()
      reads this
    {
      copied ==> pendingResets > 0
    }

    /** What the alert currently shows. */
    function View(): AlertView
      reads this
    {
      Render(error, hasDismiss, copied)
    }

    constructor (error: ErrorInfo, hasDismiss: bool)
      ensures Valid()
      ensures this.error == error && this.hasDismiss == hasDismiss
      ensures !copied && pendingResets == 0 && dismissCalls == 0
    {
      this.error := error;
      this.hasDismiss := hasDismiss;
      copied := false;
      pendingResets := 0;
      dismissCalls := 0;
    }

    /** `handleCopyTraceId`; `clipboardOk` says whether `navigator.clipboard.writeText`
        resolved. A success sets `copied` and schedules its 2000 ms reset; a rejected write is
        swallowed; with no trace ID nothing happens. */
    method HandleCopyTraceId(clipboardOk: bool)
      requires Valid()
      modifies this`copied, this`pendingResets
      ensures Valid()
      ensures HasTraceId(error.traceId) && clipboardOk ==> copied && pendingResets == old(pendingResets) + 1
      ensures !(HasTraceId(error.traceId) && clipboardOk) ==>
        copied == old(copied) && pendingResets == old(pendingResets)
    {
      if HasTraceId(error.traceId) {
        if clipboardOk {
          copied := true;
          pendingResets := pendingResets + 1;
        }
      }
    }

    /** The scheduled `setCopied(false)` runs. */
    method ResetTimerFires()
      requires Valid() && pendingResets > 0
      modifies this`copied, this`pendingResets
      ensures Valid()
      ensures !copied && pendingResets == old(pendingResets) - 1
    {
      copied := false;
      pendingResets := pendingResets - 1;
    }

    /** A click on the dismiss button, which only exists when `onDismiss` was supplied. */
    method ClickDismiss()
      requires View().dismissButton
      modifies this`dismissCalls
      ensures dismissCalls == old(dismissCalls) + 1
    {
      dismissCalls := dismissCalls + 1;
    }
  }
}
