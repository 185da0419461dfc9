/** The global exception filter (server/src/common/filters/all-exceptions.filter.ts):
    every exception a request handler throws becomes one JSON reply whose
    status and `statusCode` agree. */
module ExceptionsFilter {

  /** The `message` property of a JSON value: a string, a list of strings
      (validation errors), or absent. */
  datatype MessageValue = Absent | Str(s: string) | StrList(items: seq<string>)

  /** What `HttpException.getResponse()` returns: the string the exception was
      built with, or an object whose `message` property is read. */
  datatype HttpResponse = Text(text: string) | Object(message: MessageValue)

  /** A thrown value: an `HttpException` with its status, or anything else. */
  datatype Thrown = HttpError(status: int, response: HttpResponse) | OtherError

  const InternalServerError: int := 500
  const BadRequestStatus: int := 400
  const ForbiddenStatus: int := 403

  /** `new BadRequestException(msg)` and `new ForbiddenException(msg)`: the
      response object carries the message. */
  function BadRequest(msg: string): Thrown {
    HttpError(BadRequestStatus, Object(Str(msg)))
  }

  function Forbidden(msg: string): Thrown {
    HttpError(ForbiddenStatus, Object(Str(msg)))
  }

  datatype Body = Body(statusCode: int, timestamp: string, path: string, message: MessageValue)

  /** The reply: its body and the HTTP status it is sent with. */
  datatype Reply = Reply(body: Body, status: int)

  function Status(e: Thrown): int {
    if e.HttpError? then e.status else InternalServerError
  }

  /** `typeof message === 'object' ? message.message : message`. */
  function MessageOf(e: Thrown): MessageValue {
    match e
    case OtherError => Str("Internal server error")
    case HttpError(_, Text(t)) => Str(t)
    case HttpError(_, Object(m)) => m
  }

  /** `catch`: the request URL and the current ISO time are inputs. */
  function Catch(e: Thrown, url: string, now: string): (r: Reply)
    ensures r.status == r.body.statusCode
    ensures r.body.path == url && r.body.timestamp == now
    ensures e.OtherError? ==> r.status == 500 && r.body.message == Str("Internal server error")
    ensures e.HttpError? ==> r.status == e.status
    ensures e.HttpError? && e.response.Text? ==> r.body.message == Str(e.response.text)
    ensures e.HttpError? && e.response.Object? ==> r.body.message == e.response.message
  {
    var status := Status(e);
    Reply(Body(status, now, url, MessageOf(e)), status)
  }

  /** A client sees the status and the message a handler threw with
      `BadRequestException` or `ForbiddenException`. */
  lemma HandlerMessagesReachClient(msg: string, url: string, now: string)
    ensures Catch(BadRequest(msg), url, now).status == 400
    ensures Catch(BadRequest(msg), url, now).body.message == Str(msg)
    ensures Catch(Forbidden(msg), url, now).status == 403
    ensures Catch(Forbidden(msg), url, now).body.message == Str(msg)
  {
  }

  /** Only an `HttpException` can produce a status other than 500. */
  lemma Non500ComesFromHttpException(e: Thrown, url: string, now: string)
    requires Catch(e, url, now).status != 500
    ensures e.HttpError?
  {
  }
}
