/**
 * ServiceError, the error every handler returns, and how it becomes an HTTP
 * response (src/errors.rs).
 */
module Errors {
  import Uuid
  import Trigger

  /** What a failed diesel query reported. */
  datatype DbCause = NotFound | UniqueViolation | ConnectionLost

  datatype ServiceError =
    | InternalServerError
    | BadRequest(message: string)
    | Unauthorized
    | DbError(cause: DbCause)
    | BlockingError(text: string)
    | R2D2Error
    | JoinError

  /** The failure of a task run on actix's blocking thread pool. */
  datatype PoolFailure = TaskFailed(debug: string) | Canceled

  /** The body of a response: a JSON-encoded string, or the embedded login page. */
  datatype Body = Json(text: string) | LoginPage

  datatype Response = Response(status: nat, contentType: string, body: Body)

  const JSON_TYPE := "application/json"
  const HTML_TYPE := "text/html; charset=utf-8"
  const INTERNAL_MESSAGE := "Internal Server Error, Please try later"
  const INVALID_UUID := "Invalid UUID"

  /** The response chosen for an error, without its side effect on the trigger. */
  function Respond(e: ServiceError): (r: Response)
    ensures r.status == 400 <==> e.BadRequest?
    ensures r.status == 200 <==> e.Unauthorized?
    ensures r.status == 500 <==> !e.BadRequest? && !e.Unauthorized?
    ensures e.BadRequest? ==> r.body == Json(e.message) && r.contentType == JSON_TYPE
    ensures e.Unauthorized? ==> r.body == LoginPage && r.contentType == HTML_TYPE
    ensures !e.BadRequest? && !e.Unauthorized? ==> r.body == Json(INTERNAL_MESSAGE)
  {
    match e
    case BadRequest(message) => Response(400, JSON_TYPE, Json(message))
    case Unauthorized => Response(200, HTML_TYPE, LoginPage)
    case _ => Response(500, JSON_TYPE, Json(INTERNAL_MESSAGE))
  }

  /** `error_response`: an unauthorized request also asks for a cache reload. */
  method ErrorResponse(e: ServiceError, trigger: Trigger.UpdateTrigger) returns (r: Response)
    modifies trigger
    ensures r == Respond(e)
    ensures trigger.raised == (old(trigger.raised) || e.Unauthorized?)
  {
    match e
    case BadRequest(message) =>
      r := Response(400, JSON_TYPE, Json(message));
    case Unauthorized =>
      trigger.Set();
      r := Response(200, HTML_TYPE, LoginPage);
    case _ =>
      r := Response(500, JSON_TYPE, Json(INTERNAL_MESSAGE));
  }

  /** A malformed UUID is the client's fault, whatever the parser said. */
  function FromParseError(p: Uuid.ParseError): (e: ServiceError)
    ensures e.BadRequest? && e.message == INVALID_UUID
  {
    BadRequest(INVALID_UUID)
  }

  /** The text of a BlockingError, as its Display implementation renders it. */
  function PoolFailureText(b: PoolFailure): string {
    match b
    case TaskFailed(debug) => debug
    case Canceled => "Thread pool is gone"
  }

  function FromBlockingError(b: PoolFailure): (e: ServiceError)
    ensures e.BlockingError? && e.text == PoolFailureText(b)
  {
    BlockingError(PoolFailureText(b))
  }

  /** A malformed UUID reaches the client as a 400 carrying "Invalid UUID". */
  lemma ParseErrorResponse(p: Uuid.ParseError)
    ensures Respond(FromParseError(p)) == Response(400, JSON_TYPE, Json(INVALID_UUID))
  {
  }

  /** A thread-pool failure is reported as a generic 500. */
  lemma BlockingErrorResponse(b: PoolFailure)
    ensures Respond(FromBlockingError(b)) == Response(500, JSON_TYPE, Json(INTERNAL_MESSAGE))
  {
  }
}
