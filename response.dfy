/**
 * The HTTP answers every handler builds: a status code, the CORS and content
 * headers, and the JSON envelope. The envelope's text is left to the
 * serializer; the model keeps the envelope as a value, with absent members
 * as `None`.
 */
module Response {
  import opened Wrappers
  import opened Types

  datatype HttpResponse = HttpResponse(statusCode: int, headers: map<string, string>, body: ApiResponse)

  /** The headers every answer carries unless the caller overrides them. */
  const DefaultHeaders: map<string, string> := map[
    "Content-Type" := "application/json",
    "Access-Control-Allow-Origin" := "*",
    "Access-Control-Allow-Headers" := "Content-Type,Authorization",
    "Access-Control-Allow-Methods" := "GET,POST,PUT,DELETE,OPTIONS"]

  /** Every default header is present with its default value. */
  predicate HasDefaultHeaders(r: HttpResponse) {
    forall k :: k in DefaultHeaders ==> k in r.headers && r.headers[k] == DefaultHeaders[k]
  }

  /**
   * The shape every handler answer has: the default headers, success exactly
   * for status 200 with no error text, and an error text on every failure.
   */
  predicate Consistent(r: HttpResponse) {
    && HasDefaultHeaders(r)
    && (r.body.success <==> r.statusCode == 200)
    && (r.body.success ==> r.body.error.None?)
    && (!r.body.success ==> r.body.error.Some? && r.body.message.None?)
  }

  /**
   * An answer with the given status and envelope; headers given by the caller
   * are added to the defaults and win over a default of the same name.
   */
  function CreateResponse(statusCode: int, body: ApiResponse, headers: map<string, string>): (r: HttpResponse)
    ensures r.statusCode == statusCode && r.body == body
    ensures r.headers.Keys == DefaultHeaders.Keys + headers.Keys
    ensures forall k :: k in headers ==> r.headers[k] == headers[k]
    ensures forall k :: k in DefaultHeaders && k !in headers ==> r.headers[k] == DefaultHeaders[k]
  {
    HttpResponse(statusCode, DefaultHeaders + headers, body)
  }

  /** A 200 answer carrying `data` and, when given, a message. */
  function SuccessResponse(data: Payload, message: Option<string>): (r: HttpResponse)
    ensures Consistent(r)
    ensures r.statusCode == 200 && r.body.data == Some(data) && r.body.message == message
  {
    CreateResponse(200, ApiResponse(true, Some(data), None, message), map[])
  }

  /** A failure answer with the error text; callers that give no status use 400. */
  function ErrorResponse(error: string, statusCode: int): (r: HttpResponse)
    ensures HasDefaultHeaders(r)
    ensures r.statusCode == statusCode && !r.body.success
    ensures r.body.error == Some(error) && r.body.data.None? && r.body.message.None?
    ensures statusCode != 200 ==> Consistent(r)
  {
    CreateResponse(statusCode, ApiResponse(false, None, Some(error), None), map[])
  }

  /** 401 "Unauthorized". */
  function UnauthorizedResponse(): (r: HttpResponse)
    ensures Consistent(r) && r.statusCode == 401 && r.body.error == Some("Unauthorized")
  {
    CreateResponse(401, ApiResponse(false, None, Some("Unauthorized"), None), map[])
  }

  /** 403 "Forbidden"; no handler answers with it. */
  function ForbiddenResponse(): (r: HttpResponse)
    ensures Consistent(r) && r.statusCode == 403 && r.body.error == Some("Forbidden")
  {
    CreateResponse(403, ApiResponse(false, None, Some("Forbidden"), None), map[])
  }

  /** 404 "Not found". */
  function NotFoundResponse(): (r: HttpResponse)
    ensures Consistent(r) && r.statusCode == 404 && r.body.error == Some("Not found")
  {
    CreateResponse(404, ApiResponse(false, None, Some("Not found"), None), map[])
  }

  /** 400 "Validation failed", the formatted issues as the data. */
  function ValidationErrorResponse(errors: seq<string>): (r: HttpResponse)
    ensures Consistent(r) && r.statusCode == 400
    ensures r.body.error == Some("Validation failed") && r.body.data == Some(ErrorsData(errors))
  {
    CreateResponse(400, ApiResponse(false, Some(ErrorsData(errors)), Some("Validation failed"), None), map[])
  }

  /** The answer of a handler whose store call threw: 500 "Internal server error". */
  function InternalErrorResponse(): (r: HttpResponse)
    ensures Consistent(r) && r.statusCode == 500 && r.body.error == Some("Internal server error")
  {
    ErrorResponse("Internal server error", 500)
  }

  /** A header the caller passes replaces the default of the same name and adds nothing else. */
  lemma OverrideHeader(statusCode: int, body: ApiResponse, k: string, v: string)
    requires k in DefaultHeaders
    ensures CreateResponse(statusCode, body, map[k := v]).headers == DefaultHeaders[k := v]
  {
  }
}
