/** The Next.js API route `POST /api/predict`: it forwards the browser's JSON body
    to the Flask backend and classifies what comes back. */
module PredictRoute {
  import opened Wire

  const BackendUrl: string := "http://127.0.0.1:5001/predict"

  const BackendFailedMessage: string := "Prediction failed on the backend."

  const InternalErrorMessage: string := "An internal server error occurred."

  /** The one request the route sends to the backend. */
  datatype Forward = Forward(url: string, httpMethod: string, contentType: string, body: Json)

  /** A `NextResponse.json(body, { status })`. */
  datatype Response = Response(status: int, body: Json)

  /** Everything the route does for one call: the requests it sends, in order,
      and the response it returns. */
  datatype Exchange = Exchange(sent: seq<Forward>, response: Response)

  /** Whether `NextResponse.json(body, { status })` accepts `status`: the Fetch
      standard's `Response` constructor throws a `RangeError` for a status outside
      200 to 599 and a `TypeError` when a body is given with a null-body status
      (101, 103, 204, 205 or 304). */
  predicate JsonResponseAllowed(status: int) {
    200 <= status <= 599 && status !in {101, 103, 204, 205, 304}
  }

  /** `POST`. `request` is the result of `req.json()`, `None` when the body does not
      parse; `backend` maps the forwarded body to what `fetch` yields, with
      `Got(Reply(s, None))` when the backend's body does not parse. */
  function Post(request: Option<Json>, backend: Json -> Fetch): (x: Exchange)
    ensures |x.sent| <= 1
    ensures |x.sent| == 1 <==> request.Some?
    ensures |x.sent| == 1 ==> x.sent[0] == Forward(BackendUrl, "POST", "application/json", request.value)
  {
    match request
    case None => Exchange([], Response(500, ErrorBody(InternalErrorMessage)))
    case Some(body) =>
      var sent := [Forward(BackendUrl, "POST", "application/json", body)];
      match backend(body)
      case Unreachable => Exchange(sent, Response(500, ErrorBody(InternalErrorMessage)))
      case Got(Reply(status, parsed)) =>
        if !IsOk(status) then
          if JsonResponseAllowed(status) then Exchange(sent, Response(status, ErrorBody(BackendFailedMessage)))
          else
            // building the error response throws, inside the `try`
            Exchange(sent, Response(500, ErrorBody(InternalErrorMessage)))
        else
          match parsed
          case None => Exchange(sent, Response(500, ErrorBody(InternalErrorMessage)))
          case Some(result) => Exchange(sent, Response(200, result))
  }

  /** The relay's response as the browser's `fetch` sees it. */
  function AsSeenByClient(r: Response): Fetch {
    Got(Reply(r.status, Some(r.body)))
  }

  /** A non-ok backend status is passed through with a fixed error body, when a
      JSON response may carry it. */
  lemma NonOkStatusPreserved(body: Json, backend: Json -> Fetch)
    requires backend(body).Got? && !IsOk(backend(body).reply.status)
    requires JsonResponseAllowed(backend(body).reply.status)
    ensures Post(Some(body), backend).response ==
      Response(backend(body).reply.status, ErrorBody(BackendFailedMessage))
    ensures !IsOk(Post(Some(body), backend).response.status)
  {
  }

  /** An ok backend reply with a JSON body is returned unchanged, with status 200. */
  lemma OkPassesThrough(body: Json, backend: Json -> Fetch)
    requires backend(body).Got? && IsOk(backend(body).reply.status) && backend(body).reply.body.Some?
    ensures Post(Some(body), backend).response == Response(200, backend(body).reply.body.value)
  {
  }

  /** Every exception inside the `try` gives a 500 with the fixed message: a body
      that does not parse, an unreachable backend, a non-ok status the error
      response cannot carry, or an ok backend body that does not parse. */
  lemma ExceptionsAre500(request: Option<Json>, backend: Json -> Fetch)
    requires
      || request.None?
      || backend(request.value).Unreachable?
      || (!IsOk(backend(request.value).reply.status) && !JsonResponseAllowed(backend(request.value).reply.status))
      || (IsOk(backend(request.value).reply.status) && backend(request.value).reply.body.None?)
    ensures Post(request, backend).response == Response(500, ErrorBody(InternalErrorMessage))
  {
  }

  /** The 304 a cache-aware backend might send, and any status outside the range
      a `Response` may have, become a 500 rather than being passed through. */
  lemma UnsendableStatusIs500(body: Json, backend: Json -> Fetch)
    requires backend(body).Got? && (backend(body).reply.status == 304 || backend(body).reply.status > 599)
    ensures Post(Some(body), backend).response == Response(500, ErrorBody(InternalErrorMessage))
  {
  }

  /** The relay's status is always one the browser can receive: the backend's
      own status when it is passed through, otherwise 200 or 500. */
  lemma ResponseStatusAllowed(request: Option<Json>, backend: Json -> Fetch)
    ensures JsonResponseAllowed(Post(request, backend).response.status)
    ensures var st := Post(request, backend).response.status;
      st == 200 || st == 500 || (backend(request.value).Got? && st == backend(request.value).reply.status)
  {
  }

  /** The relay answers with a 2xx status exactly when the backend answered with
      a 2xx status and a JSON body; it never turns a failure into success. */
  lemma OkOnlyFromOkBackend(request: Option<Json>, backend: Json -> Fetch)
    ensures IsOk(Post(request, backend).response.status) <==>
      && request.Some?
      && backend(request.value).Got?
      && IsOk(backend(request.value).reply.status)
      && backend(request.value).reply.body.Some?
  {
  }
}
