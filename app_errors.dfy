/** internal/utils/errors.go: the application error value, its constructors with
    their fixed HTTP status codes, and the translation of validator failures into
    `{path, message}` entries. */
module AppErrors {

  const StatusBadRequest: int := 400
  const StatusUnauthorized: int := 401
  const StatusForbidden: int := 403
  const StatusNotFound: int := 404
  const StatusTooManyRequests: int := 429
  const StatusInternalServerError: int := 500

  /** One failed rule, as go-playground/validator reports it: the field's JSON
      name (the validator is configured to use the `json` tag), the rule's tag
      and the rule's parameter ("" when it has none). */
  datatype FieldError = FieldError(field: string, tag: string, param: string)

  /** What `Validate.Struct` can return as an error: the list of field failures,
      or the validator's own complaint about being misused. */
  datatype ValidatorError =
    | ValidationErrors(fieldErrors: seq<FieldError>)
    | InvalidValidation(text: string)

  datatype ValidationErrType = ValidationErrType(path: string, message: string)

  /** The `Errors any` payload of an AppError: nil, or a list of field messages. */
  datatype Details = NoDetails | FieldList(items: seq<ValidationErrType>)

  datatype AppError = AppError(code: int, message: string, errors: Details)

  /** A value of Go's `error` interface as the core meets it: an `*AppError`, or
      any other error (a driver or library failure) known only by its text. */
  datatype Error = App(app: AppError) | Other(text: string)

  /** `(*AppError).Error()`. */
  function ErrorText(e: AppError): (s: string)
    ensures s == e.message
  {
    e.message
  }

  /** The message `FormatValidationErrors` writes for one failure. */
  function Message(field: string, tag: string, param: string): string {
    match tag
    case "required" => field + " is required"
    case "email" => field + " must be a valid email address"
    case "confirm_password" => "password and confirm passwords must be same"
    case "min" => field + " must have at least " + param + " characters"
    case "oneof" => field + " must be one of: " + param
    case "gte" => field + " must be greater than or equal to " + param
    case "lte" => field + " must be less than or equal to " + param
    case "rfc3339" => "must be in RFC3339 format (e.g., 2006-01-02T15:04:05Z or 2006-01-02T15:04:05+05:30)"
    case _ => field + " has an invalid value"
  }

  /** The tags whose message does not mention the field. */
  predicate FixedMessageTag(tag: string) {
    tag == "confirm_password" || tag == "rfc3339"
  }

  /** The tags whose message ends with the rule's parameter. */
  predicate ParamTag(tag: string) {
    tag == "min" || tag == "oneof" || tag == "gte" || tag == "lte"
  }

  predicate KnownTag(tag: string) {
    FixedMessageTag(tag) || ParamTag(tag) || tag == "required" || tag == "email"
  }

  /** The entry for one failure: its path is the failing field's name. */
  function Entry(e: FieldError): ValidationErrType {
    ValidationErrType(e.field, Message(e.field, e.tag, e.param))
  }

  /** Specification of `FormatValidationErrors`: one entry per failure, in order. */
  function Entries(fieldErrors: seq<FieldError>): (r: seq<ValidationErrType>)
    ensures |r| == |fieldErrors|
    ensures forall i :: 0 <= i < |r| ==> r[i] == Entry(fieldErrors[i])
  {
    if fieldErrors == [] then [] else [Entry(fieldErrors[0])] + Entries(fieldErrors[1..])
  }

  /** `FormatValidationErrors`. The Go code asserts the error to
      `validator.ValidationErrors` and panics on anything else. */
  method FormatValidationErrors(err: ValidatorError) returns (errs: seq<ValidationErrType>)
    requires err.ValidationErrors?
    ensures |errs| == |err.fieldErrors|
    ensures forall i :: 0 <= i < |errs| ==>
              errs[i].path == err.fieldErrors[i].field &&
              errs[i].message == Message(err.fieldErrors[i].field, err.fieldErrors[i].tag, err.fieldErrors[i].param)
    ensures errs == Entries(err.fieldErrors)
  {
    var fieldErrors := err.fieldErrors;
    errs := [];
    var k := 0;
    while k < |fieldErrors|
      invariant 0 <= k <= |fieldErrors|
      invariant |errs| == k
      invariant forall i :: 0 <= i < k ==> errs[i] == Entry(fieldErrors[i])
    {
      var e := fieldErrors[k];
      var field := e.field;
      var message := Message(field, e.tag, e.param);
      errs := errs + [ValidationErrType(field, message)];
      k := k + 1;
    }
  }

  /** Every message except the two fixed ones starts with the field name. */
  lemma MessageNamesField(field: string, tag: string, param: string)
    requires !FixedMessageTag(tag)
    ensures |Message(field, tag, param)| > |field|
    ensures Message(field, tag, param)[..|field|] == field
  {
  }

  /** The words between the field name and the parameter in the four
      parameterised messages. */
  function ParamWording(tag: string): string
    requires ParamTag(tag)
  {
    match tag
    case "min" => " must have at least "
    case "oneof" => " must be one of: "
    case "gte" => " must be greater than or equal to "
    case _ => " must be less than or equal to "
  }

  /** The `min`, `oneof`, `gte` and `lte` messages carry the rule's parameter
      right after the field's name and the rule's wording. */
  lemma MessageCarriesParam(field: string, tag: string, param: string)
    requires ParamTag(tag)
    ensures var m := Message(field, tag, param);
            var k := |field| + |ParamWording(tag)|;
            k + |param| <= |m| && m[k..k + |param|] == param
  {
    var prefix := field + ParamWording(tag);
    var suffix := if tag == "min" then " characters" else "";
    var m := Message(field, tag, param);
    assert m == prefix + param + suffix;
    assert m[|prefix|..|prefix| + |param|] == param;
  }

  /** The `confirm_password` and `rfc3339` messages depend on neither field nor parameter. */
  lemma FixedMessagesIgnoreField(f1: string, f2: string, tag: string, p1: string, p2: string)
    requires FixedMessageTag(tag)
    ensures Message(f1, tag, p1) == Message(f2, tag, p2)
  {
  }

  /** Any tag outside the table gets the generic message. */
  lemma UnknownTagMessage(field: string, tag: string, param: string)
    requires !KnownTag(tag)
    ensures Message(field, tag, param) == field + " has an invalid value"
  {
  }

  function NewAppError(code: int, msg: string, errs: Details): (e: AppError)
    ensures e.code == code && e.message == msg && e.errors == errs
  {
    AppError(code, msg, errs)
  }

  function BadRequest(msg: string, errs: Details): (e: AppError)
    ensures e == AppError(StatusBadRequest, msg, errs)
  {
    NewAppError(StatusBadRequest, msg, errs)
  }

  function NotFound(msg: string, errs: Details): (e: AppError)
    ensures e == AppError(StatusNotFound, msg, errs)
  {
    NewAppError(StatusNotFound, msg, errs)
  }

  function Internal(msg: string, errs: Details): (e: AppError)
    ensures e == AppError(StatusInternalServerError, msg, errs)
  {
    NewAppError(StatusInternalServerError, msg, errs)
  }

  function Unauthorized(msg: string, errs: Details): (e: AppError)
    ensures e == AppError(StatusUnauthorized, msg, errs)
  {
    NewAppError(StatusUnauthorized, msg, errs)
  }

  function Forbidden(msg: string, errs: Details): (e: AppError)
    ensures e == AppError(StatusForbidden, msg, errs)
  {
    NewAppError(StatusForbidden, msg, errs)
  }

  /** The status code tells the five constructors apart, and none of them loses
      the message or the details it was given. */
  lemma ConstructorsDistinguishable(m1: string, d1: Details, m2: string, d2: Details)
    ensures BadRequest(m1, d1) != Unauthorized(m2, d2) && BadRequest(m1, d1) != Forbidden(m2, d2)
    ensures BadRequest(m1, d1) != NotFound(m2, d2) && BadRequest(m1, d1) != Internal(m2, d2)
    ensures Unauthorized(m1, d1) != Forbidden(m2, d2) && Unauthorized(m1, d1) != NotFound(m2, d2)
    ensures Unauthorized(m1, d1) != Internal(m2, d2) && Forbidden(m1, d1) != NotFound(m2, d2)
    ensures Forbidden(m1, d1) != Internal(m2, d2) && NotFound(m1, d1) != Internal(m2, d2)
    ensures BadRequest(m1, d1) == BadRequest(m2, d2) <==> m1 == m2 && d1 == d2
    ensures Internal(m1, d1) == Internal(m2, d2) <==> m1 == m2 && d1 == d2
  {
  }
}
