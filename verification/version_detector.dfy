/** Classifying a router as running the old or the new web UI, from one
    unauthenticated probe of `<base>/ui`. */
module VersionDetector {
  import opened Http
  import opened Interface

  datatype Version = OldUi | NewUi

  /** How the probe ended: the `ui` reference could not be joined onto the
      base URL, the GET got no response, or a response with a status. */
  datatype Probe =
    | UrlJoinFailed
    | ProbeFailed(cause: TransportError)
    | ProbeAnswered(status: StatusCode)

  /** A version exactly when a status came back: 2xx means the new UI, any
      other status the old one. No response is no version, never a default. */
  function DetectVersion(probe: Probe): (v: Option<Version>)
    ensures v.Some? <==> probe.ProbeAnswered?
    ensures v == Some(NewUi) <==> probe.ProbeAnswered? && IsSuccess(probe.status)
    ensures v == Some(OldUi) <==> probe.ProbeAnswered? && !IsSuccess(probe.status)
  {
    match probe
    case ProbeAnswered(status) => Some(if IsSuccess(status) then NewUi else OldUi)
    case _ => None
  }
}
