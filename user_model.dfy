/** internal/models/user.go: the stored user document, the request bodies with
    their validation rules, the public view of a user, and the token claims. */
module UserModel {
  import opened Wrappers
  import opened Primitives
  import opened AppErrors
  import opened Validation

  /** A document of the `users` collection. A token field that was never set or
      has been `$unset` is None. */
  datatype User = User(
    id: ObjectId,
    username: string,
    email: string,
    password: string,              // the password hash
    verified: bool,
    createdAt: Time,
    updatedAt: Time,
    verificationToken: Option<string>,
    verificationTokenExpiresAt: Option<Time>,
    passwordResetToken: Option<string>,
    passwordResetTokenExpiresAt: Option<Time>)

  datatype CreateUserRequest = CreateUserRequest(username: string, email: string, password: string)

  /** What responses show of a user: no password hash, no tokens. */
  datatype UserResponse = UserResponse(id: ObjectId, username: string, email: string, createdAt: Time, updatedAt: Time)

  datatype Credentials = Credentials(email: string, password: string)

  datatype RegisteredClaims = RegisteredClaims(expiresAt: Option<Time>, issuedAt: Option<Time>)

  /** The JWT claims: the three identity fields plus the registered time claims. */
  datatype Claims = Claims(userId: string, email: string, username: string, registered: RegisteredClaims)

  datatype UpdatePasswordRequest = UpdatePasswordRequest(password: string, confirmPassword: string)

  /** `validate:"required,email"`; `isEmail` is the library's address check. */
  function EmailRule(v: string, isEmail: string -> bool): Option<FieldError> {
    FirstOf([Required("email", v), if isEmail(v) then None else Some(FieldError("email", "email", ""))])
  }

  /** `Validate.Struct(CreateUserRequest)`. */
  function ValidateCreateUser(req: CreateUserRequest, isEmail: string -> bool): seq<FieldError> {
    Collect([
      FirstOf([Required("username", req.username), MinLength("username", req.username, 3),
               if |req.username| > 20 then Some(FieldError("username", "max", "20")) else None]),
      EmailRule(req.email, isEmail),
      FirstOf([Required("password", req.password), MinLength("password", req.password, 6)])
    ])
  }

  /** `Validate.Struct(Credentials)`. */
  function ValidateCredentials(c: Credentials, isEmail: string -> bool): seq<FieldError> {
    Collect([EmailRule(c.email, isEmail), Required("password", c.password)])
  }

  /** `Validate.Struct(UpdatePasswordRequest)`. */
  function ValidateUpdatePassword(req: UpdatePasswordRequest): seq<FieldError> {
    Collect([
      FirstOf([Required("password", req.password), MinLength("password", req.password, 6)]),
      FirstOf([Required("confirm_password", req.confirmPassword),
               if req.confirmPassword != req.password then Some(FieldError("confirm_password", "eqfield", "Password")) else None])
    ])
  }

  /** A sign-up body passes validation iff the username has 3 to 20 characters,
      the email is a non-empty well-formed address and the password has at least 6. */
  lemma CreateUserValidIff(req: CreateUserRequest, isEmail: string -> bool)
    ensures ValidateCreateUser(req, isEmail) == [] <==>
            3 <= |req.username| <= 20 && req.email != "" && isEmail(req.email) && |req.password| >= 6
  {
    var u := [Required("username", req.username), MinLength("username", req.username, 3),
              if |req.username| > 20 then Some(FieldError("username", "max", "20")) else None];
    var e := [Required("email", req.email), if isEmail(req.email) then None else Some(FieldError("email", "email", ""))];
    var p := [Required("password", req.password), MinLength("password", req.password, 6)];
    assert FirstOf(u).None? <==> u[0].None? && u[1].None? && u[2].None?;
    assert FirstOf(e).None? <==> e[0].None? && e[1].None?;
    assert FirstOf(p).None? <==> p[0].None? && p[1].None?;
    var checks := [FirstOf(u), EmailRule(req.email, isEmail), FirstOf(p)];
    assert Collect(checks) == [] <==> checks[0].None? && checks[1].None? && checks[2].None?;
  }

  /** A login body passes validation iff the email is a non-empty well-formed
      address and the password is not empty. */
  lemma CredentialsValidIff(c: Credentials, isEmail: string -> bool)
    ensures ValidateCredentials(c, isEmail) == [] <==> c.email != "" && isEmail(c.email) && c.password != ""
  {
    var e := [Required("email", c.email), if isEmail(c.email) then None else Some(FieldError("email", "email", ""))];
    assert FirstOf(e).None? <==> e[0].None? && e[1].None?;
    var checks := [EmailRule(c.email, isEmail), Required("password", c.password)];
    assert Collect(checks) == [] <==> checks[0].None? && checks[1].None?;
  }

  /** A reset body passes validation iff the password has at least 6 characters
      and the confirmation repeats it. */
  lemma UpdatePasswordValidIff(req: UpdatePasswordRequest)
    ensures ValidateUpdatePassword(req) == [] <==> |req.password| >= 6 && req.confirmPassword == req.password
  {
    var p := [Required("password", req.password), MinLength("password", req.password, 6)];
    var q := [Required("confirm_password", req.confirmPassword),
              if req.confirmPassword != req.password then Some(FieldError("confirm_password", "eqfield", "Password")) else None];
    assert FirstOf(p).None? <==> p[0].None? && p[1].None?;
    assert FirstOf(q).None? <==> q[0].None? && q[1].None?;
    var checks := [FirstOf(p), FirstOf(q)];
    assert Collect(checks) == [] <==> checks[0].None? && checks[1].None?;
  }

  /** A mismatched confirmation is reported under the `eqfield` tag, which the
      message table does not list: the client reads the generic message, never
      "password and confirm passwords must be same". */
  lemma MismatchGetsGenericMessage(req: UpdatePasswordRequest)
    requires |req.password| >= 6 && req.confirmPassword != "" && req.confirmPassword != req.password
    ensures Entries(ValidateUpdatePassword(req)) ==
            [ValidationErrType("confirm_password", "confirm_password has an invalid value")]
  {
    var fe := FieldError("confirm_password", "eqfield", "Password");
    MismatchReportedAsEqfield(req);
    assert !KnownTag("eqfield");
    UnknownTagMessage("confirm_password", "eqfield", "Password");
    assert "confirm_password" + " has an invalid value" == "confirm_password has an invalid value";
    assert Entries([fe]) == [Entry(fe)];
  }

  /** The only failure of such a body is `eqfield` on confirm_password. */
  lemma MismatchReportedAsEqfield(req: UpdatePasswordRequest)
    requires |req.password| >= 6 && req.confirmPassword != "" && req.confirmPassword != req.password
    ensures ValidateUpdatePassword(req) == [FieldError("confirm_password", "eqfield", "Password")]
  {
    var p := [Required("password", req.password), MinLength("password", req.password, 6)];
    var q := [Required("confirm_password", req.confirmPassword),
              Some(FieldError("confirm_password", "eqfield", "Password"))];
    assert FirstOf(p) == None;
    assert FirstOf(q) == q[1] by { assert FirstOf(q) == FirstOf(q[1..]); }
    var checks := [FirstOf(p), FirstOf(q)];
    assert Collect(checks) == [q[1].value] by {
      assert Collect(checks) == Collect(checks[1..]);
      assert Collect(checks[1..]) == [q[1].value] + Collect(checks[2..]);
    }
  }

  /** The public view of a stored user. */
  function ResponseOf(u: User): UserResponse {
    UserResponse(u.id, u.username, u.email, u.createdAt, u.updatedAt)
  }

  /** The response shows none of a user's secrets: changing the password hash
      or any token field leaves it as it was. */
  lemma ResponseHidesSecrets(u: User, password: string, verification: Option<string>, verificationExpiry: Option<Time>,
                             reset: Option<string>, resetExpiry: Option<Time>)
    ensures ResponseOf(u.(password := password, verificationToken := verification,
                          verificationTokenExpiresAt := verificationExpiry,
                          passwordResetToken := reset, passwordResetTokenExpiresAt := resetExpiry)) == ResponseOf(u)
  {
  }
}
