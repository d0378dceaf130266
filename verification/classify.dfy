/** Two-phase classification of a response body: a lenient probe for the
    venue's error fields, then the strict decode into the caller's shape. */
module Classify {
  import opened Fallible
  import opened GeminiTypes

  /** The probe's verdict: it decoded, at least one of the three fields is
      non-empty, and `result` is not "ok". */
  predicate IsVenueError(probe: Option<ErrorCapture>)
  {
    && probe.Some?
    && (|probe.value.message| != 0 || |probe.value.result| != 0 || |probe.value.reason| != 0)
    && probe.value.result != "ok"
  }

  /** Classifies `body`. `probe` is the lenient decode into the error shape
      (`None` when it fails); `decode` is the strict decode into the
      caller's shape, whose failure is passed on unchanged. */
  function ClassifyResponse<T>(probe: string -> Option<ErrorCapture>,
                               decode: string -> Result<T, string>,
                               body: string): (r: Result<T, Error>)
    ensures (r.Failure? && r.error.Venue?) <==> IsVenueError(probe(body))
    ensures IsVenueError(probe(body)) ==> r == Failure(Venue(probe(body).value.message))
    ensures !IsVenueError(probe(body)) ==>
      && (r.Success? <==> decode(body).Success?)
      && (r.Success? ==> r.value == decode(body).value)
      && (r.Failure? ==> r.error == Decode(decode(body).error))
  {
    var capture := probe(body);
    if IsVenueError(capture) then
      Failure(Venue(capture.value.message))
    else
      match decode(body)
      case Success(v) => Success(v)
      case Failure(e) => Failure(Decode(e))
  }

  /** What the strict phase alone would answer. */
  function Strict<T>(decode: string -> Result<T, string>, body: string): Result<T, Error>
  {
    match decode(body)
    case Success(v) => Success(v)
    case Failure(e) => Failure(Decode(e))
  }

  /** A body whose `result` is "ok" always reaches the strict decode. */
  lemma OkResultFallsThrough<T>(probe: string -> Option<ErrorCapture>,
                                decode: string -> Result<T, string>, body: string)
    requires probe(body).Some? && probe(body).value.result == "ok"
    ensures ClassifyResponse(probe, decode, body) == Strict(decode, body)
  {
  }

  /** So does a body whose three error fields are all empty, and one the
      probe cannot decode at all. */
  lemma EmptyOrUndecodableFallsThrough<T>(probe: string -> Option<ErrorCapture>,
                                          decode: string -> Result<T, string>, body: string)
    requires probe(body).None? || probe(body).value == ErrorCapture("", "", "")
    ensures ClassifyResponse(probe, decode, body) == Strict(decode, body)
  {
  }

  /** A venue error is never masked by the strict decode: even when the
      body would decode into the caller's shape, the call fails with the
      venue's message. */
  lemma VenueErrorWinsOverDecode<T>(probe: string -> Option<ErrorCapture>,
                                    decode: string -> Result<T, string>, body: string)
    requires IsVenueError(probe(body)) && decode(body).Success?
    ensures ClassifyResponse(probe, decode, body) == Failure(Venue(probe(body).value.message))
  {
  }

  /** The venue error carries only the message: a body with a non-ok
      result, a reason and an empty message fails with an empty message,
      and the reason is dropped. */
  lemma VenueErrorDropsReason<T>(probe: string -> Option<ErrorCapture>,
                                 decode: string -> Result<T, string>, body: string)
    requires probe(body).Some? && probe(body).value.result != "ok"
    requires probe(body).value.reason != "" && probe(body).value.message == ""
    ensures ClassifyResponse(probe, decode, body) == Failure(Venue(""))
  {
  }
}
