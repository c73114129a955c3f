/** internal/utils/response.go's error envelope and net/http's `http.Error`:
    the two shapes of error reply the core writes. */
module Responses {
  import opened AppErrors

  /** The JSON body `{success, message, errors}`. */
  datatype Envelope = Envelope(success: bool, message: string, errors: Details)

  datatype Reply =
    | Json(status: int, body: Envelope)    // utils.ErrorJSON
    | Text(status: int, text: string)      // http.Error: text/plain

  /** `utils.ErrorJSON(w, status, message, errs)`. */
  function ErrorJson(status: int, message: string, errs: Details): (r: Reply)
    ensures r.Json? && r.status == status
    ensures !r.body.success && r.body.message == message && r.body.errors == errs
  {
    Json(status, Envelope(false, message, errs))
  }

  /** `http.Error(w, message, status)`: the message and a newline, as plain text. */
  function HttpError(message: string, status: int): (r: Reply)
    ensures r.Text? && r.status == status
    ensures |r.text| == |message| + 1 && r.text[..|message|] == message && r.text[|message|] == '\n'
  {
    Text(status, message + "\n")
  }
}
