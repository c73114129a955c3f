/** internal/repository/user_repo.go: the `users` collection as an in-memory
    table keyed by ObjectID, with each `UpdateOne` as a transition of that
    table. `FindOne` and `UpdateOne` take the first matching document; the
    model takes the one with the smallest id. */
module UserRepo {
  import opened Wrappers
  import opened Primitives
  import opened AppErrors
  import opened UserModel

  type Users = map<ObjectId, User>

  const NoDocumentsText := "mongo: no documents in result"
  const CreateFaultText := "Error creating user"
  const VerifyFaultText := "Error updating user verification status"
  const BadVerificationText := "Invalid or expired verification token"
  const BadResetText := "Invalid or expired token"

  ghost predicate WellKeyed(users: Users) {
    forall k :: k in users ==> users[k].id == k
  }

  /** The smallest id in [i, bound) whose user satisfies `p`. */
  function FindFrom(users: Users, p: User -> bool, i: nat, bound: nat): (r: Option<ObjectId>)
    ensures r.Some? ==> i <= r.value < bound && r.value in users && p(users[r.value])
    ensures r.Some? ==> forall k :: i <= k < r.value && k in users ==> !p(users[k])
    ensures r.None? ==> forall k :: i <= k < bound && k in users ==> !p(users[k])
    decreases bound - i
  {
    if i >= bound then None
    else if i in users && p(users[i]) then Some(i)
    else FindFrom(users, p, i + 1, bound)
  }

  /** The document a `FindOne` or `UpdateOne` with filter `p` picks, when every
      id is below `bound`. */
  function FirstMatch(users: Users, p: User -> bool, bound: nat): (r: Option<ObjectId>)
    ensures r.Some? ==> r.value in users && p(users[r.value])
    ensures r.None? ==> forall k :: k in users && k < bound ==> !p(users[k])
  {
    FindFrom(users, p, 0, bound)
  }

  // ---------------------------------------------------------------------------
  // Filters and `$set`/`$unset` updates
  // ---------------------------------------------------------------------------

  function HasEmail(email: string): User -> bool {
    (u: User) => u.email == email
  }

  /** `{verification_token: token, verification_token_expires_at: {$gt: now}}`. */
  predicate VerificationMatches(u: User, token: string, now: Time) {
    u.verificationToken == Some(token) && u.verificationTokenExpiresAt.Some? && u.verificationTokenExpiresAt.value > now
  }

  /** `{password_reset_token: token, password_reset_token_expires_at: {$gt: now}}`. */
  predicate ResetMatches(u: User, token: string, now: Time) {
    u.passwordResetToken == Some(token) && u.passwordResetTokenExpiresAt.Some? && u.passwordResetTokenExpiresAt.value > now
  }

  /** `$set verified`, `$unset` both verification fields. */
  function MarkVerified(u: User): (v: User)
    ensures v.verified && v.verificationToken.None? && v.verificationTokenExpiresAt.None?
    ensures v.(verified := u.verified, verificationToken := u.verificationToken,
               verificationTokenExpiresAt := u.verificationTokenExpiresAt) == u
  {
    u.(verified := true, verificationToken := None, verificationTokenExpiresAt := None)
  }

  /** `$set password, updated_at`, `$unset` both reset fields. */
  function ReplacePassword(u: User, password: string, now: Time): (v: User)
    ensures v.password == password && v.updatedAt == now
    ensures v.passwordResetToken.None? && v.passwordResetTokenExpiresAt.None?
    ensures v.(password := u.password, updatedAt := u.updatedAt, passwordResetToken := u.passwordResetToken,
               passwordResetTokenExpiresAt := u.passwordResetTokenExpiresAt) == u
  {
    u.(password := password, updatedAt := now, passwordResetToken := None, passwordResetTokenExpiresAt := None)
  }

  /** `$set` of both reset fields from `given`. */
  function SetResetToken(u: User, given: User): (v: User)
    ensures v.passwordResetToken == given.passwordResetToken
    ensures v.passwordResetTokenExpiresAt == given.passwordResetTokenExpiresAt
    ensures v.(passwordResetToken := u.passwordResetToken, passwordResetTokenExpiresAt := u.passwordResetTokenExpiresAt) == u
  {
    u.(passwordResetToken := given.passwordResetToken, passwordResetTokenExpiresAt := given.passwordResetTokenExpiresAt)
  }

  // ---------------------------------------------------------------------------
  // The transitions
  // ---------------------------------------------------------------------------

  /** `GetUserByEmail`: the first user with that email, or the driver's error. */
  function ByEmail(users: Users, email: string, bound: nat, fault: Option<string>): (r: Result<User, Error>)
    ensures r.Ok? ==> r.value in users.Values && r.value.email == email
    ensures r.Err? && fault.None? ==>
              r.error == Other(NoDocumentsText) && forall k :: k in users && k < bound ==> users[k].email != email
  {
    if fault.Some? then Err(Other(fault.value))
    else match FirstMatch(users, HasEmail(email), bound)
      case None => Err(Other(NoDocumentsText))
      case Some(k) => Ok(users[k])
  }

  /** `VerifyEmail`: the new table and the error, if any. */
  function Verify(users: Users, token: string, now: Time, bound: nat, fault: bool): (Users, Option<Error>) {
    if fault then (users, Some(App(Internal(VerifyFaultText, NoDetails))))
    else match FirstMatch(users, (u: User) => VerificationMatches(u, token, now), bound)
      case None => (users, Some(App(BadRequest(BadVerificationText, NoDetails))))
      case Some(k) => (users[k := MarkVerified(users[k])], None)
  }

  /** `UpdatePasswordToken`: `given`'s reset fields on the first user with its id
      and email. A driver error comes back as it is. */
  function SaveResetToken(users: Users, given: User, bound: nat, fault: Option<string>): (Users, Option<Error>) {
    if fault.Some? then (users, Some(Other(fault.value)))
    else match FirstMatch(users, (u: User) => u.id == given.id && u.email == given.email, bound)
      case None => (users, None)
      case Some(k) => (users[k := SetResetToken(users[k], given)], None)
  }

  /** `UpdatePassword`: a driver error and no match are both the same 400. */
  function Reset(users: Users, token: string, password: string, now: Time, bound: nat, fault: bool)
    : (Users, Option<Error>)
  {
    var m := FirstMatch(users, (u: User) => ResetMatches(u, token, now), bound);
    if fault || m.None? then (users, Some(App(BadRequest(BadResetText, NoDetails))))
    else (users[m.value := ReplacePassword(users[m.value], password, now)], None)
  }

  /** At most one user holds this verification token. */
  ghost predicate VerificationTokenUnique(users: Users, token: string) {
    forall j, k ::
      j in users && k in users && users[j].verificationToken == Some(token) && users[k].verificationToken == Some(token)
      ==> j == k
  }

  ghost predicate ResetTokenUnique(users: Users, token: string) {
    forall j, k ::
      j in users && k in users && users[j].passwordResetToken == Some(token) && users[k].passwordResetToken == Some(token)
      ==> j == k
  }

  /** A successful verification marks exactly the holder of an unexpired
      matching token, changing nothing else; a failed one changes nothing. */
  lemma VerifyEffect(users: Users, token: string, now: Time, bound: nat, fault: bool)
    ensures var (after, err) := Verify(users, token, now, bound, fault);
            (err.Some? ==> after == users) &&
            (err.None? ==> exists k :: k in users && VerificationMatches(users[k], token, now) &&
                                       after == users[k := MarkVerified(users[k])])
  {
    var (after, err) := Verify(users, token, now, bound, fault);
    if err.None? {
      var k := FirstMatch(users, (u: User) => VerificationMatches(u, token, now), bound).value;
      assert k in users && VerificationMatches(users[k], token, now);
    }
  }

  /** With no driver failure, no match is a 400. */
  lemma VerifyNoMatch(users: Users, token: string, now: Time, bound: nat)
    requires forall k :: k in users ==> !VerificationMatches(users[k], token, now)
    ensures Verify(users, token, now, bound, false) == (users, Some(App(BadRequest(BadVerificationText, NoDetails))))
  {
  }

  /** A verification token works once: the same token fails afterwards, at
      any time, provided no other user held it. */
  lemma VerifyOnce(users: Users, token: string, now: Time, later: Time, bound: nat)
    requires VerificationTokenUnique(users, token)
    requires Verify(users, token, now, bound, false).1.None?
    ensures var after := Verify(users, token, now, bound, false).0;
            Verify(after, token, later, bound, false) == (after, Some(App(BadRequest(BadVerificationText, NoDetails))))
  {
    var k := FirstMatch(users, (u: User) => VerificationMatches(u, token, now), bound).value;
    var after := users[k := MarkVerified(users[k])];
    forall j | j in after
      ensures !VerificationMatches(after[j], token, later)
    {
      if j != k {
        assert users[j].verificationToken != Some(token);
      }
    }
  }

  /** A reset token works once, in the same way. */
  lemma ResetOnce(users: Users, token: string, password: string, now: Time, later: Time, other: string, bound: nat)
    requires ResetTokenUnique(users, token)
    requires Reset(users, token, password, now, bound, false).1.None?
    ensures var after := Reset(users, token, password, now, bound, false).0;
            Reset(after, token, other, later, bound, false) == (after, Some(App(BadRequest(BadResetText, NoDetails))))
  {
    var k := FirstMatch(users, (u: User) => ResetMatches(u, token, now), bound).value;
    var after := users[k := ReplacePassword(users[k], password, now)];
    forall j | j in after
      ensures !ResetMatches(after[j], token, later)
    {
      if j != k {
        assert users[j].passwordResetToken != Some(token);
      }
    }
  }

  /** A successful reset replaces the password of exactly the holder of an
      unexpired matching token; a failed one changes nothing. */
  lemma ResetEffect(users: Users, token: string, password: string, now: Time, bound: nat, fault: bool)
    ensures var (after, err) := Reset(users, token, password, now, bound, fault);
            (err.Some? ==> after == users && err == Some(App(BadRequest(BadResetText, NoDetails)))) &&
            (err.None? ==> exists k :: k in users && ResetMatches(users[k], token, now) &&
                                       after == users[k := ReplacePassword(users[k], password, now)])
  {
    var (after, err) := Reset(users, token, password, now, bound, fault);
    if err.None? {
      var k := FirstMatch(users, (u: User) => ResetMatches(u, token, now), bound).value;
      assert k in users && ResetMatches(users[k], token, now);
    }
  }

  /** Saving a reset token touches only the user with both that id and that
      email, and only its two reset fields. */
  lemma SaveResetTokenEffect(users: Users, given: User, bound: nat)
    requires WellKeyed(users) && forall k :: k in users ==> k < bound
    ensures var after := SaveResetToken(users, given, bound, None).0;
            if given.id in users && users[given.id].email == given.email
            then after == users[given.id := SetResetToken(users[given.id], given)]
            else after == users
  {
    var p := (u: User) => u.id == given.id && u.email == given.email;
    var m := FirstMatch(users, p, bound);
    if given.id in users && users[given.id].email == given.email {
      assert p(users[given.id]);
      assert m.Some? && m.value == given.id;
    }
  }

  class UserRepository {
    var users: Users
    var nextId: ObjectId

    ghost predicate Valid()
      reads this
    {
      WellKeyed(users) && forall k :: k in users ==> k < nextId
    }

    constructor ()
      ensures users == map[] && Valid()
    {
      users := map[];
      nextId := 1;
    }

    /** `GetUserByEmail`. */
    method GetUserByEmail(email: string, fault: Option<string>) returns (r: Result<User, Error>)
      ensures r == ByEmail(users, email, nextId, fault)
    {
      if fault.Some? {
        return Err(Other(fault.value));
      }
      var k := FirstMatch(users, HasEmail(email), nextId);
      if k.None? {
        return Err(Other(NoDocumentsText));
      }
      r := Ok(users[k.value]);
    }

    /** `CreateUser`: a fresh id and both timestamps, then the insert. */
    method CreateUser(user: User, now: Time, fault: bool) returns (stamped: User, err: Option<Error>)
      modifies this
      ensures stamped == user.(id := old(nextId), createdAt := now, updatedAt := now)
      ensures old(Valid()) ==> stamped.id !in old(users)
      ensures fault ==> err == Some(App(Internal(CreateFaultText, NoDetails))) && users == old(users)
      ensures !fault ==> err == None && users == old(users)[stamped.id := stamped]
      ensures nextId > old(nextId)
      ensures old(Valid()) ==> Valid()
    {
      stamped := user.(id := nextId);
      stamped := stamped.(createdAt := now, updatedAt := now);
      nextId := nextId + 1;
      if fault {
        err := Some(App(Internal(CreateFaultText, NoDetails)));
      } else {
        users := users[stamped.id := stamped];
        err := None;
      }
    }

    /** `VerifyEmail`. */
    method VerifyEmail(token: string, now: Time, fault: bool) returns (err: Option<Error>)
      modifies this
      ensures (users, err) == Verify(old(users), token, now, old(nextId), fault)
      ensures nextId == old(nextId)
      ensures old(Valid()) ==> Valid()
    {
      if fault {
        return Some(App(Internal(VerifyFaultText, NoDetails)));
      }
      var k := FirstMatch(users, (u: User) => VerificationMatches(u, token, now), nextId);
      if k.None? {
        return Some(App(BadRequest(BadVerificationText, NoDetails)));
      }
      var u := users[k.value];
      u := u.(verified := true);
      u := u.(verificationToken := None, verificationTokenExpiresAt := None);
      users := users[k.value := u];
      err := None;
    }

    /** `UpdatePasswordToken`. */
    method UpdatePasswordToken(user: User, fault: Option<string>) returns (err: Option<Error>)
      modifies this
      ensures (users, err) == SaveResetToken(old(users), user, old(nextId), fault)
      ensures nextId == old(nextId)
      ensures old(Valid()) ==> Valid()
    {
      if fault.Some? {
        return Some(Other(fault.value));
      }
      var k := FirstMatch(users, (u: User) => u.id == user.id && u.email == user.email, nextId);
      if k.Some? {
        var u := users[k.value];
        u := u.(passwordResetToken := user.passwordResetToken);
        u := u.(passwordResetTokenExpiresAt := user.passwordResetTokenExpiresAt);
        users := users[k.value := u];
      }
      err := None;
    }

    /** `UpdatePassword`: `req.password` is what gets stored. */
    method UpdatePassword(token: string, req: UpdatePasswordRequest, now: Time, fault: bool) returns (err: Option<Error>)
      modifies this
      ensures (users, err) == Reset(old(users), token, req.password, now, old(nextId), fault)
      ensures nextId == old(nextId)
      ensures old(Valid()) ==> Valid()
    {
      var k := FirstMatch(users, (u: User) => ResetMatches(u, token, now), nextId);
      if fault || k.None? {
        return Some(App(BadRequest(BadResetText, NoDetails)));
      }
      var u := users[k.value];
      u := u.(password := req.password, updatedAt := now);
      u := u.(passwordResetToken := None, passwordResetTokenExpiresAt := None);
      users := users[k.value := u];
      err := None;
    }
  }
}
