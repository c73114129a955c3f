/** internal/middleware/jwt.go: the authentication gate in front of every
    handler. Token decoding, signature and expiry checking belong to the JWT
    library and are parameters here. */
module Auth {
  import opened Wrappers
  import opened AppErrors
  import opened Responses
  import opened UserModel
  import RateLimit

  /** The paths that need no token; matched exactly. */
  const PublicRoutes: set<string> := {
    "/",
    "/api/auth/sign-up",
    "/api/auth/login",
    "/api/auth/forgot-password",
    "/api/auth/reset-password",
    "/api/auth/verify-email",
    "/api/auth/resend-verification"
  }

  const BearerPrefix := "Bearer "
  const MissingHeaderText := "Missing authorization header"
  const BadFormatText := "Invalid authorization header format"
  const BadTokenText := "Invalid or expired token"

  /** The `alg` a token's header names. */
  datatype SigningAlg =
    | HS256 | HS384 | HS512
    | RS256 | RS384 | RS512
    | PS256 | PS384 | PS512
    | ES256 | ES384 | ES512
    | EdDSA | NoneAlg

  /** The family `*jwt.SigningMethodHMAC` covers. */
  predicate IsHmac(alg: SigningAlg) {
    alg == HS256 || alg == HS384 || alg == HS512
  }

  /** A token's decoded header algorithm and claims, before any check. */
  datatype DecodedToken = DecodedToken(alg: SigningAlg, claims: Claims)

  /** The library's two steps: decoding the compact form (None when malformed),
      and checking signature and time claims against a key. */
  datatype JwtLibrary = JwtLibrary(decode: string -> Option<DecodedToken>, verify: (string, string) -> bool)

  /** The three values the gate stores in the request context. */
  datatype Identity = Identity(userId: string, email: string, username: string)

  /** The gate either calls `next` (with the identity for a protected path,
      with the untouched request for a public one) or writes a reply. */
  datatype GateOutcome = Next(identity: Option<Identity>) | Respond(reply: Reply)

  /** `strings.TrimPrefix`. */
  function TrimPrefix(s: string, prefix: string): (r: string)
    ensures prefix <= s ==> s == prefix + r
    ensures !(prefix <= s) ==> r == s
  {
    if prefix <= s then s[|prefix|..] else s
  }

  /** `jwt.ParseWithClaims` with the gate's key function: the claims when the
      token decodes, names an HMAC algorithm and verifies against the secret. */
  function ParseWithClaims(token: string, secret: string, lib: JwtLibrary): (r: Option<Claims>)
    ensures r.Some? <==> lib.decode(token).Some? && IsHmac(lib.decode(token).value.alg) && lib.verify(token, secret)
    ensures r.Some? ==> r.value == lib.decode(token).value.claims
  {
    match lib.decode(token)
    case None => None
    case Some(t) => if IsHmac(t.alg) && lib.verify(token, secret) then Some(t.claims) else None
  }

  function IdentityOf(c: Claims): Identity {
    Identity(c.userId, c.email, c.username)
  }

  /** `JWTMiddleware`: the decision for one request; `authHeader` is the
      Authorization header ("" when absent), `secret` is JWT_SECRET. */
  function Gate(path: string, authHeader: string, secret: string, lib: JwtLibrary): GateOutcome {
    if path in PublicRoutes then Next(None)
    else if authHeader == "" then Respond(ErrorJson(StatusUnauthorized, MissingHeaderText, NoDetails))
    else
      var token := TrimPrefix(authHeader, BearerPrefix);
      if token == authHeader then Respond(ErrorJson(StatusUnauthorized, BadFormatText, NoDetails))
      else match ParseWithClaims(token, secret, lib)
        case None => Respond(HttpError(BadTokenText, StatusUnauthorized))
        case Some(claims) => Next(Some(IdentityOf(claims)))
  }

  /** A public path is passed on untouched whatever the header says. */
  lemma PublicPathBypasses(path: string, h1: string, h2: string, secret: string, lib: JwtLibrary)
    requires path in PublicRoutes
    ensures Gate(path, h1, secret, lib) == Next(None) == Gate(path, h2, secret, lib)
  {
  }

  /** Protected path, no header: JSON 401. */
  lemma MissingHeaderRejected(path: string, secret: string, lib: JwtLibrary)
    requires path !in PublicRoutes
    ensures Gate(path, "", secret, lib) == Respond(ErrorJson(StatusUnauthorized, MissingHeaderText, NoDetails))
  {
  }

  /** Removing the prefix changes the header iff the header starts with it, so
      the gate's `tokenString == authHeader` test is exactly "no Bearer prefix". */
  lemma TrimPrefixChangesIff(s: string, prefix: string)
    requires prefix != []
    ensures TrimPrefix(s, prefix) != s <==> prefix <= s
  {
    if prefix <= s {
      assert |TrimPrefix(s, prefix)| < |s|;
    }
  }

  /** A non-empty header without the exact "Bearer " prefix: JSON 401. */
  lemma BadFormatRejected(path: string, authHeader: string, secret: string, lib: JwtLibrary)
    requires path !in PublicRoutes && authHeader != "" && !(BearerPrefix <= authHeader)
    ensures Gate(path, authHeader, secret, lib) == Respond(ErrorJson(StatusUnauthorized, BadFormatText, NoDetails))
  {
  }

  /** The token handed to the library is the header minus one leading prefix. */
  lemma TokenIsHeaderMinusPrefix(path: string, token: string, secret: string, lib: JwtLibrary)
    requires path !in PublicRoutes
    ensures Gate(path, BearerPrefix + token, secret, lib) ==
            match ParseWithClaims(token, secret, lib)
            case None => Respond(HttpError(BadTokenText, StatusUnauthorized))
            case Some(c) => Next(Some(IdentityOf(c)))
  {
    var h := BearerPrefix + token;
    assert BearerPrefix <= h;
    assert TrimPrefix(h, BearerPrefix) == token;
    TrimPrefixChangesIff(h, BearerPrefix);
  }

  /** A token signed with any algorithm outside the HMAC family is refused,
      even when the library would accept its signature. */
  lemma NonHmacRejected(path: string, token: string, secret: string, lib: JwtLibrary)
    requires path !in PublicRoutes
    requires lib.decode(token).Some? && !IsHmac(lib.decode(token).value.alg)
    ensures Gate(path, BearerPrefix + token, secret, lib) == Respond(HttpError(BadTokenText, StatusUnauthorized))
  {
    TokenIsHeaderMinusPrefix(path, token, secret, lib);
  }

  /** Every parse or verification failure is a plain-text 401, not JSON. */
  lemma BadTokenIsPlainText(path: string, token: string, secret: string, lib: JwtLibrary)
    requires path !in PublicRoutes
    requires ParseWithClaims(token, secret, lib).None?
    ensures Gate(path, BearerPrefix + token, secret, lib) == Respond(Text(StatusUnauthorized, "Invalid or expired token\n"))
  {
    TokenIsHeaderMinusPrefix(path, token, secret, lib);
  }

  /** When a protected request goes on, the context carries exactly the three
      identity fields of the verified token's claims. */
  lemma IdentityFromClaims(path: string, authHeader: string, secret: string, lib: JwtLibrary)
    requires path !in PublicRoutes
    requires Gate(path, authHeader, secret, lib).Next?
    ensures BearerPrefix <= authHeader
    ensures var c := ParseWithClaims(authHeader[|BearerPrefix|..], secret, lib);
            c.Some? && Gate(path, authHeader, secret, lib).identity ==
            Some(Identity(c.value.userId, c.value.email, c.value.username))
  {
    TrimPrefixChangesIff(authHeader, BearerPrefix);
  }

  /** `next` is reached iff the path is public or the header carries a
      "Bearer " token that verifies. */
  lemma NextIff(path: string, authHeader: string, secret: string, lib: JwtLibrary)
    ensures Gate(path, authHeader, secret, lib).Next? <==>
            path in PublicRoutes ||
            (BearerPrefix <= authHeader && ParseWithClaims(authHeader[|BearerPrefix|..], secret, lib).Some?)
  {
    TrimPrefixChangesIff(authHeader, BearerPrefix);
  }

  /** Every throttled path is public, so the rate limiter's endpoints never
      need a token. */
  lemma ThrottledRoutesArePublic()
    ensures RateLimit.RateLimitRoutes <= PublicRoutes
  {
  }
}
