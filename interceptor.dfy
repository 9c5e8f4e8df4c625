/** The process-wide axios response interceptor: it classifies every failed
    request as expected (a 4xx response) or unexpected (anything else), reports
    the unexpected ones to the user, and always rejects with the same error. */
module Interceptor {

  datatype Option<+T> = None | Some(value: T)

  /** The HTTP response carried by a failed request. */
  datatype Response = Response(status: int)

  /** A rejected request; `response` is None when no response arrived at all
      (network failure, timeout). */
  datatype Error = Error(response: Option<Response>)

  /** The outcome of one remote call, decided by the network and the server. */
  datatype Reply<+T> = Ok(data: T) | Failed(error: Error)

  /** What the user gets to see besides the list: a console line or a blocking alert. */
  datatype Notice = Logged(error: Error) | Alerted(message: string)

  datatype Class = Expected | Unexpected

  const UnexpectedMessage := "unexpected error happened"

  /** An error is expected exactly when a response arrived with a status in [400, 500). */
  function Classify(e: Error): (c: Class)
    ensures c == Expected <==> e.response.Some? && 400 <= e.response.value.status < 500
  {
    match e.response
    case None => Unexpected
    case Some(r) => if r.status >= 400 && r.status < 500 then Expected else Unexpected
  }

  /** The interceptor's reaction to one failure: the notices it shows and the
      error its returned promise is rejected with. */
  datatype Interception = Interception(notices: seq<Notice>, rejected: Error)

  function Intercept(e: Error): (h: Interception)
    ensures h.rejected == e
    ensures Classify(e) == Expected ==> h.notices == []
    ensures Classify(e) == Unexpected ==> h.notices == [Logged(e), Alerted(UnexpectedMessage)]
  {
    var shown := if Classify(e) != Expected then [Logged(e), Alerted(UnexpectedMessage)] else [];
    Interception(shown, e)
  }

  /** The generic alert fires exactly for failures without a response or with a
      status outside [400, 500); the error is rethrown either way. */
  lemma UnexpectedAlertIff(e: Error)
    ensures Alerted(UnexpectedMessage) in Intercept(e).notices
            <==> e.response.None? || e.response.value.status < 400 || 500 <= e.response.value.status
    ensures Logged(e) in Intercept(e).notices <==> Alerted(UnexpectedMessage) in Intercept(e).notices
    ensures Intercept(e).rejected == e
  {
  }
}
