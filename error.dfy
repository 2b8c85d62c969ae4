/**
 * The error type of the dimmer crate: a kind (an enumeration with structural
 * equality) together with a free-form message.
 */
module RbdError {

  import opened Wrappers

  /** Every kind the crate declares. Only SetHigh, SetLow, ChannelCommunicationDisconnected
      and Other are produced by the dimmer state machine; the timer kinds and DimmerNotFound
      are declared but never built. */
  datatype RbdDimmerErrorKind =
    | SetHigh
    | SetLow
    | ChannelCommunicationDisconnected
    | Other
    | TimerCancel
    | TimerScheduled
    | TimerEvery
    | DimmerNotFound

  datatype RbdDimmerError = RbdDimmerError(message: string, kind: RbdDimmerErrorKind)

  /** `Result<(), RbdDimmerError>`: what a pin write, an edge wait and a manager call return. */
  datatype Outcome = Ok | Err(error: RbdDimmerError)

  /** The fixed text the display form starts with. */
  const DisplayPrefix: string := "Error when use RBDDimmer interface. Reason: "

  function New(kind: RbdDimmerErrorKind, message: string): (e: RbdDimmerError)
    ensures e.kind == kind && e.message == message
  {
    RbdDimmerError(message, kind)
  }

  /** An error of the given kind with an empty message. */
  function From(kind: RbdDimmerErrorKind): (e: RbdDimmerError)
    ensures e == New(kind, "")
    ensures Display(e) == DisplayPrefix
  {
    RbdDimmerError("", kind)
  }

  /** An error of kind Other carrying the given message. */
  function OtherError(message: string): (e: RbdDimmerError)
    ensures e == New(Other, message)
    ensures Reason(Display(e)) == Some(message)
  {
    RbdDimmerError(message, Other)
  }

  /** The display form: the fixed prefix followed by the message; the kind is not shown. */
  function Display(e: RbdDimmerError): (s: string)
    ensures |s| == |DisplayPrefix| + |e.message|
    ensures s[..|DisplayPrefix|] == DisplayPrefix && s[|DisplayPrefix|..] == e.message
  {
    DisplayPrefix + e.message
  }

  /** Reads the message back out of a display string, if it has the display form. */
  function Reason(s: string): (r: Option<string>)
    ensures r.Some? <==> |s| >= |DisplayPrefix| && s[..|DisplayPrefix|] == DisplayPrefix
    ensures r.Some? ==> s == DisplayPrefix + r.value
  {
    if |s| >= |DisplayPrefix| && s[..|DisplayPrefix|] == DisplayPrefix then
      assert s == s[..|DisplayPrefix|] + s[|DisplayPrefix|..];
      Some(s[|DisplayPrefix|..])
    else
      None
  }

  /** Display and Reason are a round trip: the message is recovered exactly. */
  lemma ReasonOfDisplay(e: RbdDimmerError)
    ensures Reason(Display(e)) == Some(e.message)
  {
  }

  /** The display form depends on the message alone, and it determines the message. */
  lemma DisplayIgnoresKind(e1: RbdDimmerError, e2: RbdDimmerError)
    ensures Display(e1) == Display(e2) <==> e1.message == e2.message
  {
  }

  /** Every error is built by New from its own fields. */
  lemma NewRoundTrip(e: RbdDimmerError)
    ensures New(e.kind, e.message) == e
  {
  }
}
