/** The handful of go-playground/validator rules the request structs use, as
    the list of failures `Validate.Struct` reports: fields in declaration order,
    at most one failure per field (its first failing rule), each named by the
    field's JSON name as internal/validation/validator.go configures it. */
module Validation {
  import opened Wrappers
  import opened Primitives
  import opened AppErrors

  /** The failures among a struct's per-field checks, in order. */
  function Collect(checks: seq<Option<FieldError>>): (r: seq<FieldError>)
    ensures |r| <= |checks|
    ensures r == [] <==> forall i :: 0 <= i < |checks| ==> checks[i].None?
  {
    if checks == [] then []
    else match checks[0]
      case Some(e) => [e] + Collect(checks[1..])
      case None => Collect(checks[1..])
  }

  /** `required` on a string: not the empty string. */
  function Required(field: string, v: string): Option<FieldError> {
    if v == "" then Some(FieldError(field, "required", "")) else None
  }

  /** `min=n` on a string: at least n characters. */
  function MinLength(field: string, v: string, n: nat): Option<FieldError> {
    if |v| < n then Some(FieldError(field, "min", Itoa(n))) else None
  }

  /** The first failure among a field's rules. */
  function FirstOf(rules: seq<Option<FieldError>>): (r: Option<FieldError>)
    ensures r.None? <==> forall i :: 0 <= i < |rules| ==> rules[i].None?
  {
    if rules == [] then None
    else if rules[0].Some? then rules[0]
    else FirstOf(rules[1..])
  }

  /** `oneof=...` with the space-separated parameter as the validator reports it. */
  function OneOf(field: string, v: string, allowed: seq<string>, param: string): Option<FieldError> {
    if v in allowed then None else Some(FieldError(field, "oneof", param))
  }

  /** `gte=lo,lte=hi` on an int. */
  function Between(field: string, v: int, lo: int, hi: int): Option<FieldError> {
    if v < lo then Some(FieldError(field, "gte", Itoa(lo)))
    else if v > hi then Some(FieldError(field, "lte", Itoa(hi)))
    else None
  }

  /** The `rfc3339` rule registered in internal/validation/validator.go: the
      empty string passes; anything else must parse with time.RFC3339. */
  function Rfc3339(field: string, v: string, parseTime: string -> Option<Time>): Option<FieldError> {
    if v == "" || parseTime(v).Some? then None else Some(FieldError(field, "rfc3339", ""))
  }
}
