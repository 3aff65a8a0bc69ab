/** The JSON responses of the two serverless endpoints, without headers. */
module Http {

  /** The JSON body of a response. */
  datatype Body = ErrorBody(error: string) | HeartsBody(hearts: int) | SuccessBody

  /** A status code (200 when the handler sets none) and a body. */
  datatype Response = Response(status: int, body: Body)

  /** `new Response(JSON.stringify(body), { headers })`: the default status 200. */
  function Json(body: Body): Response
  {
    Response(200, body)
  }
}
