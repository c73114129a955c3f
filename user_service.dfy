/** internal/services/user_service.go: the account lifecycle. Password hashing
    and checking, random tokens, token signing and email delivery are
    parameters: `hash` fails with an error text, `random` is the hex text of
    32 random bytes (None when `crypto/rand` fails), `mailOk` says whether the
    email went out. */
module UserService {
  import opened Wrappers
  import opened Primitives
  import opened AppErrors
  import opened UserModel
  import opened UserRepo
  import Auth

  const EmailTakenText := "Email already exists"
  const HashFaultText := "Error processing password"
  const RandomFaultText := "Internal security error"
  const WelcomeMailFaultText := "Account created, but failed to send verification email. Please try 'Resend Verification'."
  const BadLoginText := "Invalid email or password"
  const UnverifiedText := "Please verify your email before logging in"
  const SignFaultText := "Error Logging In"
  const EmailRequiredText := "Email is required"
  const UserNotFoundText := "User not found"
  const SendFaultText := "Error sending email"
  const SaveTokenFaultText := "Error saving reset token"
  const ResendNotFoundText := "User not found. Please signup before verification"
  const ResendFaultText := "Error sending verification email"

  const VerificationLifetime: int := 24 * Hour
  const ResetLifetime: int := 10 * Minute
  const SessionLifetime: int := 24 * Hour

  /** The hex text of 32 zero bytes: what `hex.EncodeToString` gives for a
      buffer `rand.Read` did not fill. */
  const ZeroToken: string := seq(64, _ => '0')

  /** All emails in the table are distinct. */
  ghost predicate UniqueEmails(users: Users) {
    forall j, k :: j in users && k in users && j != k ==> users[j].email != users[k].email
  }

  ghost predicate Below(users: Users, bound: nat) {
    forall k :: k in users ==> k < bound
  }

  // ---------------------------------------------------------------------------
  // Sign-up
  // ---------------------------------------------------------------------------

  /** The response `CreateUser` returns next to an optional error. */
  datatype SignUpResult = SignUpResult(response: Option<UserResponse>, err: Option<Error>)

  /** The user `CreateUser` hands to the repository. */
  function NewAccount(req: CreateUserRequest, hashed: string, token: string, now: Time): (u: User)
    ensures !u.verified && u.password == hashed && u.username == req.username && u.email == req.email
    ensures u.verificationToken == Some(token) && u.verificationTokenExpiresAt == Some(now + VerificationLifetime)
    ensures u.passwordResetToken.None? && u.passwordResetTokenExpiresAt.None?
  {
    User(0, req.username, req.email, hashed, false, ZeroTime, ZeroTime,
         Some(token), Some(now + VerificationLifetime), None, None)
  }

  /** Specification of `CreateUser`; `bound` is the next fresh id. */
  function SignUp(users: Users, bound: nat, req: CreateUserRequest, lookupFault: Option<string>,
                  hash: string -> Result<string, string>, random: Option<string>, now: Time,
                  createFault: bool, mailOk: bool): (Users, SignUpResult)
  {
    if ByEmail(users, req.email, bound, lookupFault).Ok? then
      (users, SignUpResult(None, Some(App(BadRequest(EmailTakenText, NoDetails)))))
    else if hash(req.password).Err? then (users, SignUpResult(None, Some(App(Internal(HashFaultText, NoDetails)))))
    else if random.None? then (users, SignUpResult(None, Some(App(Internal(RandomFaultText, NoDetails)))))
    else
      var u := NewAccount(req, hash(req.password).value, random.value, now).(id := bound, createdAt := now, updatedAt := now);
      if createFault then (users, SignUpResult(None, Some(App(Internal(CreateFaultText, NoDetails)))))
      else
        var response := UserResponse(u.id, u.username, u.email, u.createdAt, ZeroTime);
        (users[bound := u],
         SignUpResult(Some(response), if mailOk then None else Some(App(Internal(WelcomeMailFaultText, NoDetails)))))
  }

  /** An email already on file is refused and nothing is stored. */
  lemma EmailTakenStoresNothing(users: Users, bound: nat, req: CreateUserRequest,
                                hash: string -> Result<string, string>, random: Option<string>, now: Time,
                                createFault: bool, mailOk: bool, k: ObjectId)
    requires k in users && k < bound && users[k].email == req.email
    ensures SignUp(users, bound, req, None, hash, random, now, createFault, mailOk) ==
            (users, SignUpResult(None, Some(App(BadRequest(EmailTakenText, NoDetails)))))
  {
    assert FirstMatch(users, HasEmail(req.email), bound).Some?;
  }

  /** Whatever sign-up stores is one new, unverified user holding the random
      token for 24 hours and the hash of the password. */
  lemma SignUpStoresUnverified(users: Users, bound: nat, req: CreateUserRequest, lookupFault: Option<string>,
                               hash: string -> Result<string, string>, random: Option<string>, now: Time,
                               createFault: bool, mailOk: bool)
    ensures var (after, res) := SignUp(users, bound, req, lookupFault, hash, random, now, createFault, mailOk);
            after != users || res.response.Some? ==>
              random.Some? && hash(req.password).Ok? && !createFault && res.response.Some? &&
              after == users[bound := after[bound]] &&
              var u := after[bound];
              u.id == bound && !u.verified && u.email == req.email && u.username == req.username &&
              u.password == hash(req.password).value &&
              u.verificationToken == random && u.verificationTokenExpiresAt == Some(now + 24 * Hour) &&
              res.response.value == UserResponse(bound, req.username, req.email, now, ZeroTime)
  {
  }

  /** A failed welcome email still returns the new account, and keeps it. */
  lemma MailFailureKeepsAccount(users: Users, bound: nat, req: CreateUserRequest, lookupFault: Option<string>,
                                hash: string -> Result<string, string>, random: Option<string>, now: Time)
    requires ByEmail(users, req.email, bound, lookupFault).Err? && hash(req.password).Ok? && random.Some?
    ensures var (after, res) := SignUp(users, bound, req, lookupFault, hash, random, now, false, false);
            bound in after && after[bound].email == req.email && res.response.Some? &&
            res.err == Some(App(Internal(WelcomeMailFaultText, NoDetails)))
  {
  }

  /** Sign-up keeps emails unique, as long as the lookup that guards it works. */
  lemma SignUpKeepsEmailsUnique(users: Users, bound: nat, req: CreateUserRequest,
                                hash: string -> Result<string, string>, random: Option<string>, now: Time,
                                createFault: bool, mailOk: bool)
    requires UniqueEmails(users) && Below(users, bound)
    ensures UniqueEmails(SignUp(users, bound, req, None, hash, random, now, createFault, mailOk).0)
  {
    var after := SignUp(users, bound, req, None, hash, random, now, createFault, mailOk).0;
    if after != users {
      assert ByEmail(users, req.email, bound, None).Err?;
      assert forall k :: k in users ==> users[k].email != req.email;
      assert after[bound].email == req.email;
    }
  }

  /** When the lookup itself fails, the duplicate check is skipped: a second
      account with a taken email is stored. */
  lemma LookupFaultAdmitsDuplicate(users: Users, bound: nat, req: CreateUserRequest, fault: string,
                                   hash: string -> Result<string, string>, random: Option<string>, now: Time, k: ObjectId)
    requires k in users && users[k].email == req.email && Below(users, bound)
    requires hash(req.password).Ok? && random.Some?
    ensures var after := SignUp(users, bound, req, Some(fault), hash, random, now, false, true).0;
            k in after && bound in after && k != bound && after[k].email == after[bound].email
  {
  }

  // ---------------------------------------------------------------------------
  // Login
  // ---------------------------------------------------------------------------

  datatype LoginReply = LoginReply(token: string, user: UserResponse)

  /** The id as `ObjectID.Hex()` writes it: 24 lower-case hex digits of its 12 bytes. */
  function IdHex(id: ObjectId): (s: string)
    ensures |s| == 24
  {
    Pow16IsObjectIdSpace();
    ObjectIdHex(id % ObjectIdSpace)
  }

  /** The claims `CreateTokenWithClaims` signs (HS256), at time `now`. */
  function LoginClaims(u: User, now: Time): Claims {
    Claims(IdHex(u.id), u.email, u.username, RegisteredClaims(Some(now + SessionLifetime), Some(now)))
  }

  /** Specification of `LoginUser`; `passwordMatches(plain, hash)` is
      `VerifyPassword` succeeding and `sign` is signing the claims. */
  function Login(users: Users, bound: nat, creds: Credentials, lookupFault: Option<string>,
                 passwordMatches: (string, string) -> bool, sign: Claims -> Option<string>, now: Time)
    : Result<LoginReply, Error>
  {
    match ByEmail(users, creds.email, bound, lookupFault)
    case Err(_) => Err(App(Unauthorized(BadLoginText, NoDetails)))
    case Ok(u) =>
      if !u.verified then Err(App(Forbidden(UnverifiedText, NoDetails)))
      else if !passwordMatches(creds.password, u.password) then Err(App(Unauthorized(BadLoginText, NoDetails)))
      else match sign(LoginClaims(u, now))
        case None => Err(App(Internal(SignFaultText, NoDetails)))
        case Some(token) => Ok(LoginReply(token, ResponseOf(u)))
  }

  /** An unknown email and a wrong password get the very same answer. */
  lemma UnknownAndWrongPasswordAlike(users: Users, bound: nat, creds: Credentials, other: Credentials,
                                     passwordMatches: (string, string) -> bool, sign: Claims -> Option<string>, now: Time)
    requires forall k :: k in users ==> users[k].email != creds.email
    requires ByEmail(users, other.email, bound, None).Ok?
    requires var u := ByEmail(users, other.email, bound, None).value; u.verified && !passwordMatches(other.password, u.password)
    ensures Login(users, bound, creds, None, passwordMatches, sign, now) ==
            Login(users, bound, other, None, passwordMatches, sign, now) ==
            Err(App(Unauthorized(BadLoginText, NoDetails)))
  {
  }

  /** The verification check comes before the password check: an unverified
      account answers 403 whatever password is given. */
  lemma UnverifiedBeforePassword(users: Users, bound: nat, creds: Credentials,
                                 passwordMatches: (string, string) -> bool, sign: Claims -> Option<string>, now: Time)
    requires ByEmail(users, creds.email, bound, None).Ok? && !ByEmail(users, creds.email, bound, None).value.verified
    ensures Login(users, bound, creds, None, passwordMatches, sign, now) == Err(App(Forbidden(UnverifiedText, NoDetails)))
  {
  }

  /** A successful login answers only for a verified user whose password
      matched, with the signature of that user's claims; the claims' user_id
      parses back to their id. */
  lemma LoginIdentityRoundTrip(users: Users, bound: nat, creds: Credentials, lookupFault: Option<string>,
                               passwordMatches: (string, string) -> bool, sign: Claims -> Option<string>, now: Time)
    requires Login(users, bound, creds, lookupFault, passwordMatches, sign, now).Ok?
    ensures var u := ByEmail(users, creds.email, bound, lookupFault).value;
            var c := LoginClaims(u, now);
            u.email == creds.email && u.verified && passwordMatches(creds.password, u.password) &&
            sign(c).Some? && Login(users, bound, creds, lookupFault, passwordMatches, sign, now).value.token == sign(c).value &&
            Auth.IdentityOf(c) == Auth.Identity(c.userId, u.email, u.username) &&
            (u.id < Pow16(24) ==> ObjectIdFromHex(c.userId) == Some(u.id))
  {
    var u := ByEmail(users, creds.email, bound, lookupFault).value;
    if u.id < Pow16(24) {
      IdHexRoundTrip(u.id);
    }
  }

  /** The token a successful login returns opens the auth gate for that user:
      when the JWT library decodes it to the HS256 claims that were signed and
      verifies it against the secret, a protected request carrying it as a
      "Bearer " header reaches `next` with the user's own id, email and name,
      and the id text the task handlers read parses back to the user's id. */
  lemma LoginTokenPassesGate(users: Users, bound: nat, creds: Credentials, lookupFault: Option<string>,
                             passwordMatches: (string, string) -> bool, sign: Claims -> Option<string>, now: Time,
                             path: string, secret: string, lib: Auth.JwtLibrary)
    requires Login(users, bound, creds, lookupFault, passwordMatches, sign, now).Ok?
    requires path !in Auth.PublicRoutes
    requires var t := Login(users, bound, creds, lookupFault, passwordMatches, sign, now).value.token;
             var u := ByEmail(users, creds.email, bound, lookupFault).value;
             lib.decode(t) == Some(Auth.DecodedToken(Auth.HS256, LoginClaims(u, now))) && lib.verify(t, secret)
    ensures var t := Login(users, bound, creds, lookupFault, passwordMatches, sign, now).value.token;
            var u := ByEmail(users, creds.email, bound, lookupFault).value;
            Auth.Gate(path, Auth.BearerPrefix + t, secret, lib) == Auth.Next(Some(Auth.Identity(IdHex(u.id), u.email, u.username))) &&
            (u.id < Pow16(24) ==> ObjectIdFromHex(Auth.Gate(path, Auth.BearerPrefix + t, secret, lib).identity.value.userId) == Some(u.id))
  {
    var t := Login(users, bound, creds, lookupFault, passwordMatches, sign, now).value.token;
    var u := ByEmail(users, creds.email, bound, lookupFault).value;
    Auth.TokenIsHeaderMinusPrefix(path, t, secret, lib);
    if u.id < Pow16(24) {
      IdHexRoundTrip(u.id);
    }
  }

  /** `ObjectIDFromHex` reads back what `Hex()` wrote. */
  lemma IdHexRoundTrip(id: ObjectId)
    requires id < Pow16(24)
    ensures ObjectIdFromHex(IdHex(id)) == Some(id)
  {
    Pow16IsObjectIdSpace();
    SmallModulus(id, ObjectIdSpace);
    assert IdHex(id) == ObjectIdHex(id);
    ObjectIdHexRoundTrip(id);
  }

  /** Kept as a lemma of its own: stated inline, the modulus fact exhausts
      the solver's resource limit. */
  lemma SmallModulus(a: nat, m: nat)
    requires a < m
    ensures a % m == a
  {
  }

  // ---------------------------------------------------------------------------
  // Forgotten and reset passwords
  // ---------------------------------------------------------------------------

  /** Specification of `ForgotPassword`. */
  function Forgot(users: Users, bound: nat, email: string, lookupFault: Option<string>, random: Option<string>,
                  mailOk: bool, now: Time, saveFault: Option<string>): (Users, Option<Error>)
  {
    if email == "" then (users, Some(App(BadRequest(EmailRequiredText, NoDetails))))
    else match ByEmail(users, email, bound, lookupFault)
      case Err(_) => (users, Some(App(NotFound(UserNotFoundText, NoDetails))))
      case Ok(u) =>
        if random.None? || !mailOk then (users, Some(App(Internal(SendFaultText, NoDetails))))
        else
          var given := u.(passwordResetToken := random, passwordResetTokenExpiresAt := Some(now + ResetLifetime));
          var (after, err) := SaveResetToken(users, given, bound, saveFault);
          if err.Some? then (after, Some(App(Internal(SaveTokenFaultText, NoDetails))))
          else (after, None)
  }

  /** An empty email is refused before any lookup. */
  lemma ForgotEmptyEmail(users: Users, bound: nat, lookupFault: Option<string>, random: Option<string>,
                         mailOk: bool, now: Time, saveFault: Option<string>)
    ensures Forgot(users, bound, "", lookupFault, random, mailOk, now, saveFault) ==
            (users, Some(App(BadRequest(EmailRequiredText, NoDetails))))
  {
  }

  /** A reset token is stored only after the email went out, only on the
      account with that email, only in its two reset fields, and it is the
      token that was mailed, valid for 10 minutes. */
  lemma ForgotStoresMailedToken(users: Users, bound: nat, email: string, lookupFault: Option<string>,
                                random: Option<string>, mailOk: bool, now: Time, saveFault: Option<string>)
    requires WellKeyed(users) && Below(users, bound)
    ensures var after := Forgot(users, bound, email, lookupFault, random, mailOk, now, saveFault).0;
            after != users ==>
              mailOk && random.Some? && email != "" &&
              exists k :: k in users && users[k].email == email &&
                after == users[k := users[k].(passwordResetToken := random,
                                              passwordResetTokenExpiresAt := Some(now + 10 * Minute))]
  {
    var after := Forgot(users, bound, email, lookupFault, random, mailOk, now, saveFault).0;
    if after != users {
      var k := FirstMatch(users, HasEmail(email), bound).value;
      var u := users[k];
      var given := u.(passwordResetToken := random, passwordResetTokenExpiresAt := Some(now + ResetLifetime));
      assert u.id == k;
      SaveResetTokenEffect(users, given, bound);
      assert after == users[k := SetResetToken(u, given)];
    }
  }

  /** Specification of `ResetPassword`: the hash, never the plain password,
      reaches the repository; a hashing error comes back as it is. */
  function ResetPasswordSpec(users: Users, bound: nat, token: string, req: UpdatePasswordRequest,
                             hash: string -> Result<string, string>, now: Time, fault: bool): (Users, Option<Error>)
  {
    match hash(req.password)
    case Err(text) => (users, Some(Other(text)))
    case Ok(hashed) => Reset(users, token, hashed, now, bound, fault)
  }

  /** After a successful reset the matched account holds the hash of the new
      password and no reset token. */
  lemma ResetStoresHash(users: Users, bound: nat, token: string, req: UpdatePasswordRequest,
                        hash: string -> Result<string, string>, now: Time, fault: bool)
    ensures var (after, err) := ResetPasswordSpec(users, bound, token, req, hash, now, fault);
            err.None? ==>
              hash(req.password).Ok? &&
              exists k :: k in users && ResetMatches(users[k], token, now) && k in after &&
                after[k].password == hash(req.password).value && after[k].passwordResetToken.None? &&
                after == users[k := ReplacePassword(users[k], hash(req.password).value, now)]
  {
    if hash(req.password).Ok? {
      ResetEffect(users, token, hash(req.password).value, now, bound, fault);
    }
  }

  // ---------------------------------------------------------------------------
  // The service object
  // ---------------------------------------------------------------------------

  /** An email the service asked the mailer to send. */
  datatype Mail = Mail(to: string, token: string)

  class UserService {
    const repo: UserRepository

    constructor (repo: UserRepository)
      ensures this.repo == repo
    {
      this.repo := repo;
    }

    /** `CreateUser`. */
    method CreateUser(req: CreateUserRequest, lookupFault: Option<string>, hash: string -> Result<string, string>,
                      random: Option<string>, now: Time, createFault: bool, mailOk: bool) returns (res: SignUpResult)
      requires repo.Valid()
      modifies repo
      ensures (repo.users, res) ==
              SignUp(old(repo.users), old(repo.nextId), req, lookupFault, hash, random, now, createFault, mailOk)
      ensures repo.Valid()
    {
      var existing := repo.GetUserByEmail(req.email, lookupFault);
      if existing.Ok? {
        return SignUpResult(None, Some(App(BadRequest(EmailTakenText, NoDetails))));
      }
      var hashed := hash(req.password);
      if hashed.Err? {
        return SignUpResult(None, Some(App(Internal(HashFaultText, NoDetails))));
      }
      if random.None? {
        return SignUpResult(None, Some(App(Internal(RandomFaultText, NoDetails))));
      }
      var token := random.value;
      var expiresAt := now + VerificationLifetime;
      var user := User(0, req.username, req.email, hashed.value, false, ZeroTime, ZeroTime,
                       Some(token), Some(expiresAt), None, None);
      var stored, err := repo.CreateUser(user, now, createFault);
      if err.Some? {
        return SignUpResult(None, err);
      }
      var response := UserResponse(stored.id, stored.username, stored.email, stored.createdAt, ZeroTime);
      if !mailOk {
        return SignUpResult(Some(response), Some(App(Internal(WelcomeMailFaultText, NoDetails))));
      }
      res := SignUpResult(Some(response), None);
    }

    /** `LoginUser`: reads the table and changes nothing. */
    method LoginUser(creds: Credentials, lookupFault: Option<string>, passwordMatches: (string, string) -> bool,
                     sign: Claims -> Option<string>, now: Time) returns (r: Result<LoginReply, Error>)
      ensures r == Login(repo.users, repo.nextId, creds, lookupFault, passwordMatches, sign, now)
    {
      var found := repo.GetUserByEmail(creds.email, lookupFault);
      if found.Err? {
        return Err(App(Unauthorized(BadLoginText, NoDetails)));
      }
      var user := found.value;
      if !user.verified {
        return Err(App(Forbidden(UnverifiedText, NoDetails)));
      }
      if !passwordMatches(creds.password, user.password) {
        return Err(App(Unauthorized(BadLoginText, NoDetails)));
      }
      var token := sign(LoginClaims(user, now));
      if token.None? {
        return Err(App(Internal(SignFaultText, NoDetails)));
      }
      r := Ok(LoginReply(token.value, ResponseOf(user)));
    }

    /** `ForgotPassword`. */
    method ForgotPassword(email: string, lookupFault: Option<string>, random: Option<string>, mailOk: bool,
                          now: Time, saveFault: Option<string>) returns (err: Option<Error>)
      requires repo.Valid()
      modifies repo
      ensures (repo.users, err) == Forgot(old(repo.users), old(repo.nextId), email, lookupFault, random, mailOk, now, saveFault)
      ensures repo.Valid()
    {
      if email == "" {
        return Some(App(BadRequest(EmailRequiredText, NoDetails)));
      }
      var found := repo.GetUserByEmail(email, lookupFault);
      if found.Err? {
        return Some(App(NotFound(UserNotFoundText, NoDetails)));
      }
      if random.None? || !mailOk {
        return Some(App(Internal(SendFaultText, NoDetails)));
      }
      var user := found.value;
      user := user.(passwordResetToken := random);
      user := user.(passwordResetTokenExpiresAt := Some(now + ResetLifetime));
      var saveErr := repo.UpdatePasswordToken(user, saveFault);
      if saveErr.Some? {
        return Some(App(Internal(SaveTokenFaultText, NoDetails)));
      }
      err := None;
    }

    /** `ResetPassword`. */
    method ResetPassword(token: string, req: UpdatePasswordRequest, hash: string -> Result<string, string>,
                         now: Time, fault: bool) returns (err: Option<Error>)
      requires repo.Valid()
      modifies repo
      ensures (repo.users, err) == ResetPasswordSpec(old(repo.users), old(repo.nextId), token, req, hash, now, fault)
      ensures repo.Valid()
    {
      var hashed := hash(req.password);
      if hashed.Err? {
        return Some(Other(hashed.error));
      }
      var withHash := req.(password := hashed.value);
      err := repo.UpdatePassword(token, withHash, now, fault);
    }

    /** `VerifyEmail`: the repository's answer, passed on. */
    method VerifyEmail(token: string, now: Time, fault: bool) returns (err: Option<Error>)
      requires repo.Valid()
      modifies repo
      ensures (repo.users, err) == Verify(old(repo.users), token, now, old(repo.nextId), fault)
      ensures repo.Valid()
    {
      err := repo.VerifyEmail(token, now, fault);
    }

    /** `ResendVerificationEmail`: mails a fresh token to a known address but
        stores nothing, so the mailed token is never one `VerifyEmail`
        accepts. A failed `rand.Read` is ignored and the zero token is mailed. */
    method ResendVerificationEmail(email: string, lookupFault: Option<string>, random: Option<string>, mailOk: bool)
      returns (err: Option<Error>, attempted: Option<Mail>)
      ensures ByEmail(repo.users, email, repo.nextId, lookupFault).Err? ==>
                err == Some(App(NotFound(ResendNotFoundText, NoDetails))) && attempted.None?
      ensures ByEmail(repo.users, email, repo.nextId, lookupFault).Ok? ==>
                attempted == Some(Mail(email, random.GetOr(ZeroToken))) &&
                err == (if mailOk then None else Some(App(Internal(ResendFaultText, NoDetails))))
    {
      var found := repo.GetUserByEmail(email, lookupFault);
      if found.Err? {
        return Some(App(NotFound(ResendNotFoundText, NoDetails))), None;
      }
      var token := ZeroToken;
      if random.Some? {
        token := random.value;
      }
      attempted := Some(Mail(email, token));
      if !mailOk {
        return Some(App(Internal(ResendFaultText, NoDetails))), attempted;
      }
      err := None;
    }
  }
}
