/** An error's way from a worker to the HTTP response: worker filter, wire, client, gateway filter. */
module RpcErrors {
  import opened Common

  /**
   * A JSON value other than null, which the code treats like an absent one. A
   * composite is an object or an array, such as the list of messages of a failed
   * validation.
   */
  datatype Json = Str(text: string) | Num(value: int) | Bool(b: bool) | Composite(ref: nat)

  predicate TruthyJson(j: Json) {
    match j
    case Str(text) => text != ""
    case Num(value) => value != 0
    case Bool(b) => b
    case Composite(_) => true
  }

  /** `...(details ? { details } : {})`. */
  function Shown(details: Option<Json>): Option<Json> {
    if details.Some? && TruthyJson(details.value) then details else None
  }

  const VALIDATION_ERROR := Str("validation_error")
  const UNAUTHORIZED := Str("unauthorized")
  const FORBIDDEN := Str("forbidden")
  const NOT_FOUND := Str("not_found")
  const CONFLICT := Str("conflict")
  const RATE_LIMITED := Str("rate_limited")
  const INTERNAL_ERROR := Str("internal_error")

  /** The marked envelope (`__rpcError: true`). */
  datatype Payload = Payload(status: int, code: Json, message: Json, details: Option<Json>, traceId: Option<string>)

  /** The response body of an HttpException: a string, or an object that may lack any of these. */
  datatype Body = Text(text: string) | Structured(code: Option<Json>, message: Option<Json>, details: Option<Json>)

  /** What a handler in a worker may throw. */
  datatype Thrown =
    | Microservice(payload: Payload)
    | Http(status: int, body: Body, message: string)
    | BareRpc(text: string)           // an RpcException that carries no envelope
    | Plain(cause: Option<string>)    // anything else

  /** What the client's observable fails with. */
  datatype Arrived =
    | Marked(payload: Payload)        // the envelope itself
    | Wrapping(payload: Payload)      // an object with the envelope as its `error`
    | Foreign(cause: Option<string>)
    | TimedOut

  /** What reaches the gateway's filter. */
  datatype Caught =
    | HttpError(status: int, body: Body, message: string)
    | Envelope(payload: Payload)
    | ErrorObject(text: string)
    | Unknown

  datatype Response = Response(status: int, code: Json, message: Json, details: Option<Json>)

  function WorkerStatusToCode(status: int): Json {
    match status
    case 400 => VALIDATION_ERROR
    case 401 => UNAUTHORIZED
    case 403 => FORBIDDEN
    case 404 => NOT_FOUND
    case 409 => CONFLICT
    case 429 => RATE_LIMITED
    case _ => INTERNAL_ERROR
  }

  /** `RpcAllExceptionsFilter.catch`: an envelope, or the bare exception's text. */
  function WorkerCatch(e: Thrown, traceId: Option<string>): Result<Payload, string> {
    match e
    case Microservice(p) => Ok(p)
    case Http(status, Text(text), _) => Ok(Payload(status, WorkerStatusToCode(status), Str(text), None, traceId))
    case Http(status, Structured(code, message, details), fallback) =>
      Ok(Payload(status, if code.Some? then code.value else WorkerStatusToCode(status),
                 if message.Some? then message.value else Str(fallback), details, traceId))
    case BareRpc(text) => Err(text)
    case Plain(cause) =>
      Ok(Payload(500, INTERNAL_ERROR, Str(if cause.Some? then cause.value else "Internal server error"), None, traceId))
  }

  /** The transport delivers an envelope either as it is or as the `error` of an exception object. */
  predicate Delivers(sent: Result<Payload, string>, a: Arrived) {
    match sent
    case Ok(p) => a == Marked(p) || a == Wrapping(p)
    case Err(text) => a == Foreign(Some(text)) || a == Foreign(None)
  }

  function FromPayload(p: Payload): Caught {
    HttpError(p.status, Structured(Some(p.code), Some(p.message), Shown(p.details)), "")
  }

  /** `RpcClientService.unwrapError`. */
  function UnwrapError(service: string, a: Arrived): Caught {
    match a
    case TimedOut => HttpError(504,
        Structured(Some(INTERNAL_ERROR), Some(Str("Upstream service '" + service + "' timed out")), None), "")
    case Marked(p) => FromPayload(p)
    case Wrapping(p) => FromPayload(p)
    case Foreign(_) => HttpError(503,
        Structured(Some(INTERNAL_ERROR), Some(Str("Upstream service '" + service + "' is unavailable")), None), "")
  }

  function GatewayStatusToCode(status: int): Json {
    match status
    case 400 => VALIDATION_ERROR
    case 401 => UNAUTHORIZED
    case 403 => FORBIDDEN
    case 404 => NOT_FOUND
    case 409 => CONFLICT
    case 429 => RATE_LIMITED
    case _ => INTERNAL_ERROR
  }

  /** What `AllExceptionsFilter.catch` replies. */
  function Reply(e: Caught): Response {
    match e
    case Envelope(p) => Response(p.status, p.code, p.message, Shown(p.details))
    case HttpError(status, Text(text), _) => Response(status, INTERNAL_ERROR, Str(text), None)
    case HttpError(status, Structured(code, message, details), fallback) =>
      Response(status, if code.Some? then code.value else GatewayStatusToCode(status),
               if message.Some? then message.value else Str(fallback), Shown(details))
    case ErrorObject(text) => Response(500, INTERNAL_ERROR, Str(text), None)
    case Unknown => Response(500, INTERNAL_ERROR, Str("Internal server error"), None)
  }

  /** `AllExceptionsFilter.catch`, which starts from defaults and overwrites them case by case. */
  method Catch(e: Caught) returns (r: Response)
    ensures r == Reply(e)
  {
    var statusCode, code, message := 500, INTERNAL_ERROR, Str("Internal server error");
    var details: Option<Json> := None;
    match e {
      case Envelope(p) =>
        statusCode, code, message, details := p.status, p.code, p.message, p.details;
      case HttpError(status, body, fallback) =>
        statusCode := status;
        match body {
          case Text(text) => message := Str(text);
          case Structured(c, m, d) =>
            message := if m.Some? then m.value else Str(fallback);
            code := if c.Some? then c.value else GatewayStatusToCode(statusCode);
            details := d;
        }
      case ErrorObject(text) => message := Str(text);
      case Unknown =>
    }
    if details.Some? && !TruthyJson(details.value) { details := None; }
    r := Response(statusCode, code, message, details);
  }

  /** What a client should be told about an error, said without the machinery in between. */
  function Meaning(e: Thrown): Option<Response> {
    match e
    case Microservice(p) => Some(Response(p.status, p.code, p.message, Shown(p.details)))
    case Http(status, body, fallback) =>
      var code := if body.Structured? && body.code.Some? then body.code.value else WorkerStatusToCode(status);
      var message := if body.Text? then Str(body.text) else if body.message.Some? then body.message.value
          else Str(fallback);
      Some(Response(status, code, message, if body.Structured? then Shown(body.details) else None))
    case Plain(cause) =>
      Some(Response(500, INTERNAL_ERROR, Str(if cause.Some? then cause.value else "Internal server error"), None))
    case BareRpc(_) => None
  }

  /**
   * All four fields of an error thrown in a worker survive the way to the HTTP
   * response, of whatever JSON type they are (falsy details are dropped), and
   * whichever shape the transport gives the envelope; only an RpcException
   * without an envelope does not, and becomes a 503.
   */
  lemma RoundTrip(e: Thrown, traceId: Option<string>, service: string, a: Arrived)
    requires Delivers(WorkerCatch(e, traceId), a)
    ensures Meaning(e).Some? ==> Reply(UnwrapError(service, a)) == Meaning(e).value
    ensures Meaning(e).None? ==>
            Reply(UnwrapError(service, a)).status == 503 && Reply(UnwrapError(service, a)).code == INTERNAL_ERROR
  {
  }

  /** The worker adds its trace id to everything but an envelope, which it passes on as it is. */
  lemma TraceIsAttached(e: Thrown, traceId: Option<string>)
    requires !e.BareRpc?
    ensures WorkerCatch(e, traceId).Ok?
    ensures var p := WorkerCatch(e, traceId).value; if e.Microservice? then p == e.payload else p.traceId == traceId
  {
  }

  /** What the client is told when the worker never answers, or answers with something that is no envelope. */
  lemma UpstreamFailures(service: string, cause: Option<string>)
    ensures Reply(UnwrapError(service, TimedOut))
            == Response(504, Str("internal_error"), Str("Upstream service '" + service + "' timed out"), None)
    ensures Reply(UnwrapError(service, Foreign(cause)))
            == Response(503, Str("internal_error"), Str("Upstream service '" + service + "' is unavailable"), None)
  {
  }

  /** An envelope that reaches the gateway's filter is answered as if unwrapped; any other error is a 500. */
  lemma UnwrappedErrors(service: string, p: Payload, text: string)
    ensures Reply(Envelope(p)) == Reply(UnwrapError(service, Marked(p))) == Reply(UnwrapError(service, Wrapping(p)))
    ensures Reply(ErrorObject(text)) == Response(500, Str("internal_error"), Str(text), None)
    ensures Reply(Unknown) == Response(500, Str("internal_error"), Str("Internal server error"), None)
  {
  }

  /** Details are shown exactly unless they are falsy: an empty string, zero or false. */
  lemma FalsyDetails(status: int, code: Json, message: Json, d: Json)
    ensures Reply(HttpError(status, Structured(Some(code), Some(message), Some(d)), ""))
            == Response(status, code, message, if d in {Str(""), Num(0), Bool(false)} then None else Some(d))
  {
  }

  function CodeOf(status: int): string {
    if status == 400 then "validation_error"
    else if status == 401 then "unauthorized"
    else if status == 403 then "forbidden"
    else if status == 404 then "not_found"
    else if status == 409 then "conflict"
    else if status == 429 then "rate_limited"
    else "internal_error"
  }

  /** An HttpException that names no code gets the one of its status, in the worker as at the gateway. */
  lemma CodesByStatus(status: int, message: string, details: Option<Json>, traceId: Option<string>)
    ensures var e := Http(status, Structured(None, Some(Str(message)), details), "");
            WorkerCatch(e, traceId) == Ok(Payload(status, Str(CodeOf(status)), Str(message), details, traceId))
    ensures Reply(HttpError(status, Structured(None, Some(Str(message)), details), "")).code == Str(CodeOf(status))
  {
  }

  /**
   * Throwing an HttpException in a worker or in the gateway itself gives the
   * same response, unless its body is a plain string and its status has a code
   * of its own: the gateway's filter then says `internal_error`.
   */
  lemma LocalEqualsRemoteIff(status: int, body: Body, message: string, traceId: Option<string>, service: string,
      a: Arrived)
    requires Delivers(WorkerCatch(Http(status, body, message), traceId), a)
    ensures Reply(UnwrapError(service, a)) == Reply(HttpError(status, body, message))
            <==> body.Structured? || status !in {400, 401, 403, 404, 409, 429}
  {
  }
}
