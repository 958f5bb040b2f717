/** What a finished transaction looks like to the caller. */
module Response {
  import opened Wrappers
  import opened Frame

  /** The three ways a request can fail. */
  datatype ODriveError = FailedToSend | NoResponse | ConvertedBadData

  /** A failed request, with the request that was sent. */
  datatype ErrorResponse = ErrorResponse(request: CANRequest, err: ODriveError)

  /** A decoded reply: the replying axis, the request that was sent and the value. */
  datatype Success<T> = Success(axis: AxisID, sentRequest: CANRequest, data: T)

  /** A Read is answered with a body; a Write only with its own request. */
  datatype ResponseType =
    | Body(request: CANRequest, response: CANResponse)
    | Bodyless(req: CANRequest)

  /** What the transport hands back for one request. */
  type ODriveResponse = Result<ResponseType, ErrorResponse>

  /** `ResponseType::request`: the request that was sent, whichever the variant. */
  function Request(rt: ResponseType): (r: CANRequest)
    ensures rt.Body? ==> r == rt.request
    ensures rt.Bodyless? ==> r == rt.req
  {
    match rt
    case Body(req, _) => req
    case Bodyless(req) => req
  }

  /** `ResponseType::body`: the request and the response of a `Body`; a
      `Bodyless` (Write) envelope has no body and panics. */
  function GetBody(rt: ResponseType): (r: Run<(CANRequest, CANResponse)>)
    ensures r.Panics? <==> rt.Bodyless?
    ensures r.Returns? ==> r.value.0 == Request(rt) && r.value.1 == rt.response
  {
    match rt
    case Body(req, resp) => Returns((req, resp))
    case Bodyless(_) => Panics
  }

  /** The request of a `Body` does not depend on the response it carries. */
  lemma RequestIgnoresResponse(req: CANRequest, resp1: CANResponse, resp2: CANResponse)
    ensures Request(Body(req, resp1)) == Request(Body(req, resp2)) == req
  {
  }
}
