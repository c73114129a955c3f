/** internal/middleware/error_handler.go: `WithError` runs a handler that may
    return an error and turns that error into one JSON error reply. */
module ErrorHandler {
  import opened Wrappers
  import opened AppErrors
  import opened Responses

  const GenericMessage: string := "Internal Server error"

  /** The reply `WithError` adds after running `handler` once on `request`
      (`None`: the wrapper writes nothing; what the handler itself wrote is its
      own business). */
  function WithError<R>(handler: R -> Option<Error>, request: R): (reply: Option<Reply>)
    ensures handler(request).None? <==> reply.None?
    ensures handler(request).Some? && handler(request).value.App? ==>
              var e := handler(request).value.app;
              reply == Some(ErrorJson(e.code, ErrorText(e), e.errors))
    ensures handler(request).Some? && handler(request).value.Other? ==>
              reply == Some(ErrorJson(StatusInternalServerError, GenericMessage, NoDetails))
  {
    match handler(request)
    case None => None
    case Some(App(e)) => Some(ErrorJson(e.code, ErrorText(e), e.errors))
    case Some(Other(_)) => Some(ErrorJson(StatusInternalServerError, GenericMessage, NoDetails))
  }

  /** Reads an AppError back out of a JSON error reply. */
  function AppErrorOf(reply: Reply): Option<AppError> {
    if reply.Json? && !reply.body.success
    then Some(AppError(reply.status, reply.body.message, reply.body.errors))
    else None
  }

  /** An AppError reaches the client with exactly its code, message and details. */
  lemma AppErrorPreserved<R>(handler: R -> Option<Error>, request: R)
    requires handler(request).Some? && handler(request).value.App?
    ensures WithError(handler, request).Some?
    ensures AppErrorOf(WithError(handler, request).value) == Some(handler(request).value.app)
  {
  }

  /** Any other error yields the same reply whatever its text: nothing of the
      original failure leaks to the client. */
  lemma UnknownErrorsIndistinguishable<R>(h1: R -> Option<Error>, h2: R -> Option<Error>, request: R)
    requires h1(request).Some? && h1(request).value.Other?
    requires h2(request).Some? && h2(request).value.Other?
    ensures WithError(h1, request) == WithError(h2, request)
    ensures WithError(h1, request).Some? && WithError(h1, request).value.status == StatusInternalServerError
  {
  }
}
