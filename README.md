# Task manager core in Dafny

A model, with proofs, of the logic underneath the Go task-manager REST API
(vamsi-nv/task-manager-in-go). The HTTP and MongoDB plumbing is left out. What remains:

- **Per-IP token-bucket rate limiter** (`RateLimit`, internal/middleware/ratelimiter.go).
  - It is a class holding a `map<string, Bucket>`, with `real` tokens and `real` time supplied by the caller.
  - Each request refills the bucket to `min(cap, tokens + elapsed*rate)`, stamps the time, then either takes one token or answers 429 "Too Many requests" as plain text.
  - A `RemoteAddr` that cannot be split writes nothing, because the Go code builds an Internal error and then drops it.
  - Proved: tokens stay within `[0, cap]` over any request sequence with a non-decreasing clock, and each IP is isolated from every other.
- **Authentication gate** (`Auth`, internal/middleware/jwt.go).
  - The decision chain is: public route, then missing header, then the `"Bearer "` prefix, then the HMAC-family check, then token verification, then the identity placed in the request context.
  - Decoding and signature checking are abstract parameters.
  - An invalid token gets a plain-text 401 from `http.Error`, not a JSON body.
- **Errors** (`AppErrors`, `Responses`, `ErrorHandler`; internal/utils/errors.go, internal/middleware/error_handler.go).
  - The `AppError` constructors with their fixed status codes.
  - The tag-to-message table and the `FormatValidationErrors` loop.
  - `WithError`'s three cases: nil, `*AppError`, and any other error, which becomes a generic 500.
- **Request validity** (`Validation`, `TaskModel`, `UserModel`).
  - The validator tags on the request structs, as the list of field failures the validator reports: struct field order, the first failing rule per field, JSON field names.
- **Tasks** (`TaskRepo`, `TaskService`).
  - The `tasks` collection is a class over `map<ObjectId, Task>`.
  - The listing query: filter, sort, limit default 20, and skip `(page-1)*limit` in 64-bit `int`.
  - Updates and deletes are checked in this order: fields present, then validation, then lookup, then owner. A partial update overwrites only the supplied fields and never the category.
- **Accounts** (`UserRepo`, `UserService`).
  - The `users` collection is a class over `map<ObjectId, User>`.
  - Sign-up stores an unverified user with a 24-hour verification token.
  - Email verification and password reset each match an unexpired token and clear it, so each token works once.
  - Login checks unknown email, then unverified, then wrong password. Unknown email and wrong password get the same answer.
  - A forgot-password request stores a 10-minute reset token, but only after the email went out.
  - Resending the verification email stores nothing.

Library behaviour the core relies on is modelled in `Primitives`:
- `ObjectIDFromHex`: exactly 24 hex digits, either case.
- `ObjectID.Hex`.
- `strconv.Atoi`: a `ParseInt(s, 10, 64)` that clamps on overflow and gives 0 on a syntax error.
- Go's 64-bit `int` wrap-around.

Time is an `int` of seconds (`ZeroTime` is Go's zero `time.Time`). Each operation takes a single `now`.

Failures of the database driver, of hashing, of `crypto/rand`, of token signing and of email delivery are parameters of the operations:
- `fault`/`lookupFault`: the driver failed, given as a flag or as the error text;
- `hash`: returns `Err(text)` on failure;
- `random`: `None` when `rand.Read` fails;
- `mailOk`: whether the email was sent;
- `sign`: `None` when signing fails.

Each stateful operation is a `method` on a class. Its `ensures` ties the new table and the result to a pure specification function of the old table (`Update`, `Delete`, `Verify`, `Reset`, `SaveResetToken`, `SignUp`, `Forgot`, `ResetPasswordSpec`, `Serve`). The lemmas about those functions state what the source promises.

## Model

| member | source | states |
|---|---|---|
| Primitives.ObjectIdFromHex | internal/services/task_service.go:27-30 | an id is produced iff the text is exactly 24 hex digits (either case), and it is below 16^24 |
| Primitives.ObjectIdHexRoundTrip | internal/utils/jwt.go:14 | parsing the 24-digit lower-case hex of an id gives back that id |
| Primitives.Atoi | internal/services/task_service.go:84-95 | the result of `strconv.Atoi` always lies in the int64 range |
| Primitives.AtoiItoa | internal/services/task_service.go:84-87 | `Atoi` reads back every int64 written in decimal |
| Primitives.ShortMalformedAtoiIsZero | internal/services/task_service.go:84-87 | text of up to 19 characters that is not an optional sign followed by digits gives 0 |
| Primitives.Wrap64 | internal/services/task_service.go:92-93 | the 64-bit `int` result lies in range, is congruent to the exact value modulo 2^64, and is exact when the exact value fits |
| AppErrors.ErrorText | internal/utils/errors.go:53-55 | `Error()` returns exactly the message |
| AppErrors.FormatValidationErrors | internal/utils/errors.go:15-45 | one entry per failure, in input order; each path is the failing field and each message comes from the tag table; the input must be a list of validation errors |
| AppErrors.MessageNamesField | internal/utils/errors.go:21-40 | every message except the two fixed ones begins with the field name |
| AppErrors.MessageCarriesParam | internal/utils/errors.go:28-35 | the `min`, `oneof`, `gte` and `lte` messages carry the rule's parameter right after the field name and the rule's wording |
| AppErrors.FixedMessagesIgnoreField | internal/utils/errors.go:26-37 | the `confirm_password` and `rfc3339` messages depend on neither the field nor the parameter |
| AppErrors.UnknownTagMessage | internal/utils/errors.go:38-39 | any tag outside the table gives "<field> has an invalid value" |
| AppErrors.NewAppError | internal/utils/errors.go:57-63 | the error keeps the code, message and details it was given |
| AppErrors.BadRequest | internal/utils/errors.go:65-67 | code 400, with message and details unchanged |
| AppErrors.NotFound | internal/utils/errors.go:69-71 | code 404, with message and details unchanged |
| AppErrors.Internal | internal/utils/errors.go:73-75 | code 500, with message and details unchanged |
| AppErrors.Unauthorized | internal/utils/errors.go:77-79 | code 401, with message and details unchanged |
| AppErrors.Forbidden | internal/utils/errors.go:80-82 | code 403, with message and details unchanged |
| AppErrors.ConstructorsDistinguishable | internal/utils/errors.go:57-82 | the five constructors never produce the same error, and `BadRequest` and `Internal` are injective in message and details |
| Responses.ErrorJson | internal/utils/response.go:25-40 | a JSON reply with the given status, `success` false, and the given message and errors |
| Responses.HttpError | internal/middleware/jwt.go:54 | a plain-text reply with the given status, whose body is the message followed by a newline |
| ErrorHandler.WithError | internal/middleware/error_handler.go:9-23 | nothing is written iff the handler returned nil; an AppError is written with its own code, message and details; any other error becomes 500 "Internal Server error" with no details |
| ErrorHandler.AppErrorPreserved | internal/middleware/error_handler.go:16-20 | the client can read back exactly the handler's AppError from the reply |
| ErrorHandler.UnknownErrorsIndistinguishable | internal/middleware/error_handler.go:21 | two non-AppError failures with different texts give identical 500 replies, so the text never reaches the client |
| RateLimit.Min | internal/middleware/ratelimiter.go:71 | the smaller of the two values |
| RateLimit.Refill | internal/middleware/ratelimiter.go:69-72 | the stamp becomes `now`; tokens become either the cap or the old tokens plus elapsed*rate, and never exceed either |
| RateLimit.Serve | internal/middleware/ratelimiter.go:42-82 | no bucket other than the requester's changes; a bucket is added only for a throttled path with a parsable address |
| RateLimit.TakeBounded | internal/middleware/ratelimiter.go:69-78 | with rate ≥ 0 and time moving forward, a bucket in [0, cap] stays in [0, cap] |
| RateLimit.TakeAdmitsIff | internal/middleware/ratelimiter.go:74-80 | admitted iff the refilled tokens are at least 1; exactly one token is taken on admission, and a rejection keeps the refilled level and the new stamp |
| RateLimit.FirstRequestStartsFull | internal/middleware/ratelimiter.go:59-67 | an unseen IP starts with a full bucket, stamped now |
| RateLimit.RejectionIs429 | internal/middleware/ratelimiter.go:80 | a throttled request that is not passed on gets the plain-text 429 "Too Many requests" |
| RateLimit.ServeBounded | internal/middleware/ratelimiter.go:59-78 | one request keeps every bucket in [0, cap] and no stamp later than now |
| RateLimit.RateLimiter.constructor | internal/middleware/ratelimiter.go:32-40 | no buckets; rate and capacity as configured; a non-negative configuration is valid |
| RateLimit.RateLimiter.LimitMiddleware | internal/middleware/ratelimiter.go:42-82 | the new map and the outcome are those of `Serve`; an unthrottled path passes with the map unchanged; an unparsable address writes nothing and changes nothing; other IPs' buckets are untouched; validity is preserved |
| RateLimit.RunBounded | internal/middleware/ratelimiter.go:59-75 | after any sequence of requests with a non-decreasing clock, every bucket holds between 0 and cap tokens |
| RateLimit.UnlimitedPathsAlwaysPass | internal/middleware/ratelimiter.go:45-48 | requests to unthrottled paths all pass and leave the map as it was |
| RateLimit.ServeLocal | internal/middleware/ratelimiter.go:59-75 | a request's outcome and its effect on its own bucket depend only on that bucket |
| RateLimit.RunIsolated | internal/middleware/ratelimiter.go:59-75 | one IP's outcomes and final bucket do not depend on other IPs' requests |
| RateLimit.BurstThenThrottle | cmd/task_manager/server.go:51 | with the server's setting (burst 1, 2 tokens per second), requests at 5.0, 5.0 and 5.5 are admitted, refused with 429, then admitted |
| RateLimit.RefillAfterPause | internal/middleware/ratelimiter.go:69-80 | capacity 2 at rate 1 per second: two quick requests pass, the third is refused, one two seconds later passes, leaving 1 token |
| Auth.TrimPrefix | internal/middleware/jwt.go:39 | a header that starts with the prefix is the prefix followed by the result; otherwise the result is the input unchanged |
| Auth.ParseWithClaims | internal/middleware/jwt.go:46-53 | claims come back iff the token decodes, names an HMAC algorithm and verifies against the secret; they are the decoded claims |
| Auth.PublicPathBypasses | internal/middleware/jwt.go:28-31 | a public path is passed on with no identity, whatever the header says |
| Auth.MissingHeaderRejected | internal/middleware/jwt.go:33-37 | a protected path with no header gets JSON 401 "Missing authorization header" |
| Auth.TrimPrefixChangesIff | internal/middleware/jwt.go:39-40 | trimming changes the header iff it starts with the prefix |
| Auth.BadFormatRejected | internal/middleware/jwt.go:39-43 | a non-empty header without the exact "Bearer " prefix gets JSON 401 "Invalid authorization header format" |
| Auth.TokenIsHeaderMinusPrefix | internal/middleware/jwt.go:39-62 | the library is given the header without its one leading "Bearer " |
| Auth.NonHmacRejected | internal/middleware/jwt.go:46-51 | a token whose algorithm is outside the HMAC family is refused even if its signature would verify |
| Auth.BadTokenIsPlainText | internal/middleware/jwt.go:53-56 | any parse or verify failure gives the plain-text 401 "Invalid or expired token\n" |
| Auth.IdentityFromClaims | internal/middleware/jwt.go:58-62 | when a protected request goes on, the context carries exactly the user_id, email and username of the verified claims |
| Auth.NextIff | internal/middleware/jwt.go:25-63 | `next` is reached iff the path is public or a "Bearer " token verifies |
| Auth.ThrottledRoutesArePublic | internal/middleware/jwt.go:15-23 | every throttled path is public, so throttled endpoints never need a token |
| UserModel.CreateUserValidIff | internal/models/user.go:24-28 | a sign-up body is valid iff the username has 3 to 20 characters, the email is a non-empty valid address and the password has at least 6 characters |
| UserModel.CredentialsValidIff | internal/models/user.go:38-41 | a login body is valid iff the email is a non-empty valid address and the password is not empty |
| UserModel.UpdatePasswordValidIff | internal/models/user.go:50-53 | a reset body is valid iff the password has at least 6 characters and the confirmation equals it |
| UserModel.MismatchReportedAsEqfield | internal/models/user.go:52 | the only failure of a mismatched confirmation is the `eqfield` tag on confirm_password |
| UserModel.MismatchGetsGenericMessage | internal/models/user.go:50-53 | a mismatched confirmation gets "confirm_password has an invalid value", never the dedicated message of the table |
| UserModel.ResponseHidesSecrets | internal/models/user.go:30-36 | changing a user's password hash or any token field leaves the response as it was |
| TaskModel.CreateTaskValidIff | internal/models/task.go:22-29 | a create body is valid iff the title has at least 3 characters, description and category are present, the priority is in 1..5, the status is pending/completed/in_progress, and the due date is empty or RFC 3339 |
| TaskModel.UpdateTaskValidIff | internal/models/task.go:31-38 | an update body is valid iff each present title has at least 3 characters, each present status is one of the three, each present priority is in 1..5, and each present due date is empty or RFC 3339 |
| TaskModel.CategoryOnlyIsNoUpdate | internal/models/task.go:40-46 | a body naming only a category has no updates |
| TaskModel.PresentEmptyStillChecked | internal/models/task.go:31-38 | a present but empty title fails `min=3`, and a present empty status fails `oneof` |
| TaskRepo.Stamp | internal/repository/task_repo.go:25-32 | the new id and both timestamps are set, and every other field is kept |
| TaskRepo.Lookup | internal/repository/task_repo.go:49-61 | the stored task iff the id exists and decoding works; otherwise NotFound "Task not found", or Internal "Error decoding task" when the driver fails |
| TaskRepo.Rewrite | internal/repository/task_repo.go:63-75 | title, description, status, priority, due date and updated_at come from the update; id, owner, category and created_at are kept |
| TaskRepo.UpdateTable | internal/repository/task_repo.go:63-83 | only the task with the given task's id changes; an absent id changes nothing |
| TaskRepo.RewriteIdempotent | internal/repository/task_repo.go:63-75 | writing the same update twice equals writing it once |
| TaskRepo.RewriteWithItself | internal/repository/task_repo.go:63-75 | rewriting a document with its own fields at its own time is no change |
| TaskRepo.UpdateThenLookup | internal/repository/task_repo.go:49-83 | reading after an update returns the rewritten task |
| TaskRepo.DeleteThenLookup | internal/repository/task_repo.go:49-92 | a deleted id is not found afterwards; other lookups are as before |
| TaskRepo.CreateThenLookup | internal/repository/task_repo.go:25-61 | a created task reads back as stamped |
| TaskRepo.TaskRepository.constructor | internal/repository/task_repo.go:19-23 | an empty, valid table |
| TaskRepo.TaskRepository.CreateTask | internal/repository/task_repo.go:25-32 | the argument is stamped with a fresh id and `now`, then inserted; an insert failure returns the driver's error and stores nothing |
| TaskRepo.TaskRepository.GetTaskByID | internal/repository/task_repo.go:49-61 | the answer is `Lookup` on the current table, and the returned task carries the asked id |
| TaskRepo.TaskRepository.UpdateTask | internal/repository/task_repo.go:63-83 | on success the table is `UpdateTable` and the given task is returned as it was, not re-read; on failure Internal "Error updating task" and no change |
| TaskRepo.TaskRepository.DeleteTask | internal/repository/task_repo.go:85-92 | on success the id is removed; on failure Internal "Error deleting task" and no change |
| TaskService.LimitRoundTrip | internal/services/task_service.go:84-87 | a limit written as a decimal int64 is used as that number |
| TaskService.UnparsableLimitIsZero | internal/services/task_service.go:84-87 | an unreadable limit of up to 19 characters gives page size 0 |
| TaskService.SkipRoundTrip | internal/services/task_service.go:89-95 | page p > 1 with any size L, negative included, skips exactly (p-1)*L while that fits in an int64 |
| TaskService.LowPageSkipsNothing | internal/services/task_service.go:89-95 | no page, or a page number of at most 1 (including unreadable text), skips nothing |
| TaskService.NewTask | internal/services/task_service.go:32-44 | the new task has the caller as owner, the request's fields, and the parsed due date (zero when empty or unreadable) |
| TaskService.MergeUpdate | internal/services/task_service.go:130-147 | each present title, description, status, priority and due date replaces the stored one; id, owner, category and timestamps are kept |
| TaskService.NoUpdatesNoChange | internal/services/task_service.go:130-147 | a request without updates merges to the same task |
| TaskService.CategoryIsNeverMerged | internal/services/task_service.go:130-147 | supplying a category makes no difference to the merge |
| TaskService.UpdatesCanChange | internal/services/task_service.go:130-147 | a request with updates changes some task, so `HasUpdates` is exactly "merging can change something" |
| TaskService.MergeIdempotent | internal/services/task_service.go:130-147 | applying the same partial update twice equals applying it once |
| TaskService.EmptyDueDateClears | internal/services/task_service.go:143-147 | a present empty due date passes validation and erases the stored date |
| TaskService.NoFieldsRefusedFirst | internal/services/task_service.go:107-109 | an update without fields gets BadRequest "no fields to update" before validation or any table access |
| TaskService.OnlyOwnerChanges | internal/services/task_service.go:117-149 | the table changes, or a task is returned, only for a valid update by the owner of an existing task, and then only that task's supplied fields and updated_at change |
| TaskService.NonOwnerRefused | internal/services/task_service.go:126-128 | a caller who is not the owner gets Unauthorized "Unauthorized access" and nothing changes |
| TaskService.ReturnedTaskIsNotReread | internal/services/task_service.go:149-154 | the returned task is the merged value with the old updated_at, while the stored copy carries `now` |
| TaskService.OnlyOwnerDeletes | internal/services/task_service.go:159-171 | a deletion happens only for the owner of an existing task, and removes only that task |
| TaskService.MissingBeforeOwnership | internal/services/task_service.go:159-162 | a missing task gives NotFound before the caller is examined |
| TaskService.BuildFilter | internal/services/task_service.go:59-73 | the filter always pins user_id to the caller; category and status are added iff given; a search adds a case-insensitive regex OR over title and description; nothing else is added |
| TaskService.BuildSort | internal/services/task_service.go:75-82 | there is one sort key iff `sort` is given; it is descending iff `order` is "desc", else ascending |
| TaskService.BuildPaging | internal/services/task_service.go:84-95 | limit 20 unless given, else `Atoi`; skip `(page-1)*limit` in 64-bit int for a page above 1, else 0 |
| TaskService.TaskService.constructor | internal/services/task_service.go:20-24 | the service uses the given repository |
| TaskService.TaskService.CreateTask | internal/services/task_service.go:26-51 | an unparsable caller id gives Unauthorized; an insert failure gives Internal "Error creating task"; otherwise the new task is stored stamped under a fresh id and returned |
| TaskService.TaskService.GetTasks | internal/services/task_service.go:53-95 | an unparsable caller id gives Unauthorized; otherwise the query's filter, sort, limit and skip are as stated for the three builders |
| TaskService.TaskService.UpdateTask | internal/services/task_service.go:105-155 | the new table and the result are those of `Update`: fields present, then validation, then lookup, then caller, then owner, then merge and write |
| TaskService.TaskService.DeleteTask | internal/services/task_service.go:157-176 | the new table and the error are those of `Delete`: lookup, then caller, then owner, then delete |
| UserRepo.FirstMatch | internal/repository/user_repo.go:25-37 | a picked id holds a matching user; no pick means no user below the bound matches |
| UserRepo.MarkVerified | internal/repository/user_repo.go:56-62 | `verified` is set, both verification fields are removed, nothing else changes |
| UserRepo.ReplacePassword | internal/repository/user_repo.go:95-101 | password and updated_at are set, both reset fields are removed, nothing else changes |
| UserRepo.SetResetToken | internal/repository/user_repo.go:77-83 | only the two reset fields change, to the given user's values |
| UserRepo.ByEmail | internal/repository/user_repo.go:25-37 | a found user is stored and has that email; without a driver failure, "not found" means no user with an id below the next fresh id has that email |
| UserRepo.VerifyEffect | internal/repository/user_repo.go:51-74 | a success verifies exactly one holder of an unexpired matching token and changes nothing else; a failure changes nothing |
| UserRepo.VerifyNoMatch | internal/repository/user_repo.go:69-71 | with no match the answer is BadRequest "Invalid or expired verification token" and the table is unchanged |
| UserRepo.VerifyOnce | internal/repository/user_repo.go:51-74 | a token held by one user verifies once; the same token then fails at any later time |
| UserRepo.ResetEffect | internal/repository/user_repo.go:92-111 | a success replaces the password of exactly one holder of an unexpired matching reset token; a failure (no match or driver error) is BadRequest "Invalid or expired token" with no change |
| UserRepo.ResetOnce | internal/repository/user_repo.go:92-111 | a reset token held by one user works once |
| UserRepo.SaveResetTokenEffect | internal/repository/user_repo.go:76-90 | only the user with both that id and that email changes, and only its two reset fields |
| UserRepo.UserRepository.constructor | internal/repository/user_repo.go:19-23 | an empty, valid table |
| UserRepo.UserRepository.GetUserByEmail | internal/repository/user_repo.go:25-37 | the answer is `ByEmail` on the current table |
| UserRepo.UserRepository.CreateUser | internal/repository/user_repo.go:39-49 | a fresh id and both timestamps are written into the argument; an insert failure gives Internal "Error creating user" and stores nothing |
| UserRepo.UserRepository.VerifyEmail | internal/repository/user_repo.go:51-74 | the new table and the error are those of `Verify` |
| UserRepo.UserRepository.UpdatePasswordToken | internal/repository/user_repo.go:76-90 | the new table and the error are those of `SaveResetToken` |
| UserRepo.UserRepository.UpdatePassword | internal/repository/user_repo.go:92-111 | the new table and the error are those of `Reset`, storing the request's password |
| UserService.NewAccount | internal/services/user_service.go:41-50 | the new user is unverified, holds the hash, and has the token with an expiry 24 hours after now; it has no reset token |
| UserService.EmailTakenStoresNothing | internal/services/user_service.go:25-28 | an email already on file gives BadRequest "Email already exists" and nothing is stored |
| UserService.SignUpStoresUnverified | internal/services/user_service.go:30-64 | whatever sign-up stores is one new unverified user under the fresh id, with the hashed password and the random token valid for 24 hours; the response shows that user with a zero updated_at |
| UserService.MailFailureKeepsAccount | internal/services/user_service.go:57-68 | when the welcome email fails, the account stays stored and is returned together with the Internal error |
| UserService.SignUpKeepsEmailsUnique | internal/services/user_service.go:25-55 | when the guarding lookup works, sign-up keeps all emails distinct |
| UserService.LookupFaultAdmitsDuplicate | internal/services/user_service.go:25-28 | when that lookup fails, the error is ignored and a second account with a taken email is stored |
| UserService.IdHex | internal/utils/jwt.go:14 | `Hex()` writes 24 characters |
| UserService.IdHexRoundTrip | internal/utils/jwt.go:14 | `ObjectIDFromHex` reads back what `Hex()` wrote |
| UserService.UnknownAndWrongPasswordAlike | internal/services/user_service.go:74-86 | an unknown email and a wrong password get the identical 401 "Invalid email or password" |
| UserService.UnverifiedBeforePassword | internal/services/user_service.go:79-81 | an unverified account gets 403 whatever password is given |
| UserService.LoginIdentityRoundTrip | internal/services/user_service.go:73-106 | a login succeeds only for a verified user whose password matched; the token is the signature of that user's claims; the claims' user_id parses back to their id (for an id that fits in 12 bytes) |
| UserService.LoginTokenPassesGate | internal/services/user_service.go:88-91 | when the JWT library decodes the returned token to the signed HS256 claims and verifies it, a protected request with that "Bearer " token reaches `next` with the user's own id, email and username, and the user_id text parses back to the user's id |
| UserService.ForgotEmptyEmail | internal/services/user_service.go:109-111 | an empty email gets BadRequest "Email is required" before any lookup |
| UserService.ForgotStoresMailedToken | internal/services/user_service.go:117-135 | a reset token is stored only after the email was sent, only on the account with that email, only in its reset fields, and it is the mailed token with an expiry 10 minutes after now |
| UserService.ResetStoresHash | internal/services/user_service.go:140-154 | after a successful reset the matched account holds the hash of the new password and no reset token |
| UserService.UserService.constructor | internal/services/user_service.go:18-22 | the service uses the given repository |
| UserService.UserService.CreateUser | internal/services/user_service.go:24-71 | the new table and the result are those of `SignUp`: duplicate, then hash, then random, then insert, then email |
| UserService.UserService.LoginUser | internal/services/user_service.go:73-106 | the answer is `Login` on the current table, and the table is not changed |
| UserService.UserService.ForgotPassword | internal/services/user_service.go:108-138 | the new table and the error are those of `Forgot` |
| UserService.UserService.ResetPassword | internal/services/user_service.go:140-154 | the new table and the error are those of `ResetPasswordSpec`: a hashing error comes back as it is, and the repository receives the hash |
| UserService.UserService.VerifyEmail | internal/services/user_service.go:156-164 | the repository's transition and answer, passed on unchanged |
| UserService.UserService.ResendVerificationEmail | internal/services/user_service.go:166-186 | an unknown email gives NotFound and no mail; otherwise the random token (the zero token when `rand.Read` fails) is mailed and nothing is stored; a mail failure gives Internal "Error sending verification email" |

## Left out

- Concurrency: the limiter's mutex is gone. Each limited request is one atomic method call. The Go `defer Unlock` also holds the lock while `next` runs; that is a scheduling detail.
- Floating point: tokens and elapsed seconds are `real`, with no float64 rounding.
- ObjectID size: ids are unbounded naturals handed out by a counter, and neither repository bounds them below 16^24. `UserService.IdHex` keeps the low 12 bytes, and the round trips back from `Hex()` assume the id fits in 12 bytes, as every real ObjectID does.
- Wall-clock time: every operation takes one `now`. Where the Go code calls `time.Now()` twice (bucket creation then refill; `CreatedAt` then `UpdatedAt`), both reads are the same instant.
- RateLimit.Serve: the Go bucket is a pointer stored in the map. Here it is a `Bucket` value that is written back. The pointer never escapes, so no aliasing is lost.
- Middleware composition: the body of `ApplyMiddleware` is not part of this model, so no request pipeline is composed. The gate, the limiter and `WithError` are modelled separately. `Auth.ThrottledRoutesArePublic` holds whatever the wrapping order is.
- JWT library internals: token decoding, signature and `exp` checking, and HMAC signing are parameters (`JwtLibrary`, `sign`).
- MongoDB: query execution is not modelled.
  - The repository's `GetTasks` and the regex, sort, skip and limit semantics are left out. `TaskService.TaskService.GetTasks` returns the query it would send, and its "Error getting tasks" path is not modelled.
  - `FindOne`/`UpdateOne` pick the first match in natural order; the model picks the matching document with the smallest id.
  - The BSON `omitempty` of the token fields is modelled as `Option` fields, None meaning absent.
- Email delivery, `crypto/rand`, `HashPassword` and `VerifyPassword` are parameters.
  - A failed `rand.Read` in `ResendVerificationEmail` is modelled as mailing 64 zeros, the encoding of an unfilled buffer.
- go-playground validator internals are not modelled. Only the rules the request structs use are, with the email-address check as a parameter.
  - `omitempty` skips only absent pointer fields; a present empty string is still checked.
  - `time.Parse(time.RFC3339, _)` is a parameter. The empty string is treated as unparsable, as Go does.
- Primitives.Atoi: the integer is modelled exactly, with clamping on overflow and 0 on a syntax error. A digit string that overflows before a later invalid character therefore gives the clamped value, as `strconv.ParseInt` reports the range error first. "0 for unparsable text" is proved for text of up to 19 characters.
- HTTP handlers and routing (JSON decoding, request-level validation calls, response writing), process wiring, graceful shutdown and environment loading.
- The limiter's IP map has no eviction, and none is invented.
- The success envelope of `ResponseJSON` is not modelled; only the error envelope is.
- Console logging (`fmt.Println`, `log`): it has no effect on state or replies.
