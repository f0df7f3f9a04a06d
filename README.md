# Prompt enhancer: passwordless login, session gate and prompt history in Dafny

This project models the core of a Next.js prompt-enhancement application.

- **Login by one-time code.** `POST /api/auth/send-otp` mails a six-digit code. `POST /api/auth/verify-otp` trades that code for a signed seven-day session cookie.
- **Session gate.** The edge middleware guards `/dashboard` and bounces signed-in users away from `/login`. `GET /api/auth/me` reports the session's claims, and `POST /api/auth/logout` deletes the cookie.
- **History store.** `POST /api/enhance` appends one prompt-history record per successful enhancement. `GET /api/history` lists the user's twenty newest records.
- **Client helpers.** These are:
  - the dashboard's category map and its `handleEnhance` state updates;
  - the three questionnaire forms and their list toggles;
  - the history page's truncation and category badges;
  - the quality-metric scores;
  - the progress indicator;
  - the toast provider.

## Layout

The modules, in dependency order:

- `Wrappers`: `Option` and `Result`.
- `Text`: the JavaScript `trim` whitespace set, ASCII lower-casing, the email normalisation applied by the schema's `lowercase` and `trim` options, and `IsBlank`.
- `OtpCode`: `generateOTP` as a function of the one random 32-bit word it draws.
- `OtpModel`, `UserModel` and `HistoryModel`: the three collections. Each has its schema checks, defaults and invariants, and the lookups and deletions the routes perform.
- `Session`: `createSession`, `verifySession`, `getSession` and the cookie attributes. A token is an ideal MAC that records its claims, its `iat` and `exp`, its key and its header algorithm.
- `Http`: request bodies, JSON values, the shared field check and the reply payloads.
- `AppServer`: the server state and the individual database steps.
  - `Store` is the database as a value, with `StoreValid` as its invariant.
  - Each database step is a function on `Store`: `WithUser`, `WithoutCodes`, `WithCode`, `WithoutCodeAt` and `WithLogin`.
  - `Server` is a class. Its fields are the collections, the cookie jar, the outbox of sent mails, the clock and the id allocator. Each step method is proved to move `Snapshot()` exactly as the matching step function does.
- One module per route, built the same way. A pure `Handle` function gives the new store and the reply. The `Post` method on a `Server` carries out the same steps one call at a time, and is proved to end in `Handle`'s state:
  - `SendOtpRoute` and `VerifyOtpRoute` (these two also define a fault type naming the collaborator call that throws);
  - `EnhanceRoute`;
  - `MeRoute` and `LogoutRoute`;
  - `HistoryRoute` (a pure query).
- `LoginFlow`: the two login routes composed.
- `Middleware`: the matcher and the redirect decision.
- Client modules:
  - `ListToggle`, with `ProjectContextForm`, `FrontendQuestions` and `BackendQuestions`;
  - `Dashboard` and `HistoryPage`;
  - `QualityMetrics`, `EnhancementProgress` and `ToastProvider`.

Inputs from the environment are parameters:

- **Time.** The server clock `now` is in milliseconds.
- **Randomness.** The OTP word and the toast id are passed in.
- **Validators and the enhancement service.**
  - `isEmail` stands for the email validator of the schema library.
  - An oracle function stands for the enhancement service.
- **Throws.** A `Fault` value names the collaborator call that throws, if any. A step that throws has no effect. The steps before it keep theirs, because the routes use no transactions.

## Model

| member | source | states |
|---|---|---|
| OtpCode.OtpValue | lib/auth/email.ts:76-78 | the code value drawn from a 32-bit word lies in 100000..999999 |
| OtpCode.GenerateOtp | lib/auth/email.ts:74-80 | the code is exactly six decimal digits, the first is never '0', and it reads back as (r mod 900000) + 100000 |
| OtpCode.ToDecimal | lib/auth/email.ts:79 | `toString` of a number is non-empty, all digits, and has no leading zero for a positive number |
| OtpCode.ToDecimalLength | lib/auth/email.ts:79 | a number between 10^(k-1) and 10^k is written with exactly k characters |
| OtpCode.ParseToDecimal | lib/auth/email.ts:79 | reading the decimal form back gives the number (the inverse of `toString`) |
| OtpCode.GenerateOnto | lib/auth/email.ts:76-78 | every value in 100000..999999 is produced by some 32-bit word |
| OtpCode.GenerateOtpCollision | lib/auth/email.ts:78 | two words give the same code iff they agree modulo 900000 |
| OtpCode.NonDigitNeverGenerated | lib/auth/email.ts:78-79 | a string with a non-digit is never a generated code |
| Text.TrimStartSpec | lib/db/models/otp.model.ts:14 | left trimming removes exactly the leading whitespace run |
| Text.TrimEndSpec | lib/db/models/otp.model.ts:14 | right trimming removes exactly the trailing whitespace run |
| Text.TrimIdempotent | lib/db/models/otp.model.ts:14 | trimming twice equals trimming once |
| Text.ToLower | lib/db/models/otp.model.ts:13 | lower-casing keeps the length |
| Text.ToLowerAt | lib/db/models/otp.model.ts:13 | lower-casing maps each character independently |
| Text.ToLowerIsLower | lib/db/models/otp.model.ts:13 | the lower-cased string has no upper-case letter |
| Text.ToLowerOfLower | lib/db/models/otp.model.ts:13 | lower-casing a lower-case string changes nothing |
| Text.TrimKeepsLower | lib/db/models/otp.model.ts:13-14 | trimming keeps a string lower-case |
| Text.NormalizeSpec | lib/db/models/otp.model.ts:13-14 | a stored email is lower-case and has no surrounding whitespace |
| Text.NormalizeIdempotent | lib/db/models/user.model.ts:17-18 | normalising a stored email changes nothing, so lookups by stored email find it |
| Text.BlankIffAllWhitespace | app/dashboard/page.tsx:47 | `!prompt.trim()` holds iff every character is whitespace |
| OtpModel.MissingPaths | lib/db/models/otp.model.ts:10-22 | the failing paths are listed iff their `required` check fails, and none iff all pass |
| OtpModel.CreateOtp | lib/db/models/otp.model.ts:9-25 | creation succeeds iff email (non-blank after setters), code and expiresAt are present; the stored email is the lower-cased trimmed input; a failure names each missing path |
| OtpModel.FindUsable | app/api/auth/verify-otp/route.ts:30-34 | the lookup returns the first record with equal email and code and expiresAt strictly after now, and none iff no record matches |
| OtpModel.Matches | app/api/auth/verify-otp/route.ts:30-34 | the `findOne` filter: equal email, equal code and `expiresAt` strictly after now; FindUsable and ExpiredNeverFound state what the lookup makes of it |
| OtpModel.Evict | app/api/auth/send-otp/route.ts:35 | deleteMany leaves no record for the address and keeps every record for another address |
| OtpModel.EvictCounts | app/api/auth/send-otp/route.ts:35 | each record for another address is kept exactly as often as it was stored, and no record for the address is kept |
| OtpModel.EvictAppend | app/api/auth/send-otp/route.ts:35 | eviction distributes over concatenation, so the kept records stay in stored order |
| OtpModel.RemoveAt | app/api/auth/verify-otp/route.ts:44 | deleting one record leaves every other record, in order |
| OtpModel.ExpiredNeverFound | lib/db/models/otp.model.ts:20-24 | an expired record is never returned by the lookup |
| OtpModel.EvictKeepsAtMostOne | app/api/auth/send-otp/route.ts:35 | eviction keeps at most one record per address |
| OtpModel.IssueLeavesOneRecord | app/api/auth/send-otp/route.ts:35-41 | after evict-then-insert the new record is the only one for its address |
| OtpModel.IssuedCodeIsTheOnlyUsable | app/api/auth/send-otp/route.ts:35-41 | after issuing, the lookup succeeds iff the code is the new one and it is unexpired |
| OtpModel.ConsumedCodeFails | app/api/auth/verify-otp/route.ts:44 | once the matched record is deleted, no code for that address matches |
| OtpModel.TtlRemovalInvisible | lib/db/models/otp.model.ts:20-24 | a TTL removal the index allows never changes what a lookup returns |
| OtpModel.TtlMayRemove | lib/db/models/otp.model.ts:23 | the TTL index may remove a record once `expiresAt` is reached; TtlRemovalInvisible states that such a removal never changes a lookup |
| OtpModel.RemoveAtKeepsAtMostOne | lib/db/models/otp.model.ts:23 | removing one record keeps at most one record per address |
| UserModel.ParseRole | lib/db/models/user.model.ts:24-28 | the role enum accepts exactly "user" and "admin" |
| UserModel.ParseRoleInverse | lib/db/models/user.model.ts:24-28 | a role string parses to a role iff it is that role's name |
| UserModel.CreateUser | lib/db/models/user.model.ts:11-33 | creation needs a non-blank email and an enum role; the email is normalised, the role defaults to "user", and lastLogin defaults to creation time |
| UserModel.FindUser | app/api/auth/send-otp/route.ts:29 | the lookup finds a user iff one is stored under the normalised email |
| UserModel.UniqueEmail | lib/db/models/user.model.ts:13-16 | two users with the same normalised email are the same entry |
| UserModel.AddUserKeepsValid | lib/db/models/user.model.ts:13-19 | inserting a new normalised email with a fresh id keeps the collection invariant |
| UserModel.CreatedEmailIsKey | lib/db/models/user.model.ts:17-18 | a created user's email is already normalised |
| UserModel.UpsertLogin | app/api/auth/verify-otp/route.ts:47-51 | the upsert sets lastLogin to now and keeps the rest of an existing user, or inserts one with the default role |
| UserModel.UpsertKeepsValid | app/api/auth/verify-otp/route.ts:47-51 | the upsert keeps the collection invariant, allocating an id only on insert |
| HistoryModel.ParseCategory | lib/db/models/prompt-history.model.ts:46-50 | the category enum accepts exactly the five names |
| HistoryModel.ParseCategoryName | lib/db/models/prompt-history.model.ts:46-50 | each category's name parses back to that category |
| HistoryModel.CreateHistory | lib/db/models/prompt-history.model.ts:30-82 | creation succeeds iff userId, both prompts and an enum category are present; isFavorite defaults to false, modelUsed to "gpt-4o-mini", latency to 0; failures list the failing paths |
| HistoryModel.FailingPaths | lib/db/models/prompt-history.model.ts:32-50 | each path is listed iff its check fails |
| HistoryModel.StoredCategoryInEnum | lib/db/models/prompt-history.model.ts:46-50 | a stored category is one of the five names |
| Session.LoadSecret | lib/auth/session.ts:4-9 | the module loads iff JWT_SECRET is set and non-empty, and otherwise fails with its message |
| Session.CreateSession | lib/auth/session.ts:19-27 | the token is HS256 under the server key, carries the claims, with iat now and exp seven days later |
| Session.VerifySession | lib/auth/session.ts:29-39 | any accepted token is well formed and yields exactly its signed claims |
| Session.RoundTrip | lib/auth/session.ts:19-39 | a freshly minted token verifies, giving its claims, exactly until its exp |
| Session.ValidForSevenDays | lib/auth/session.ts:19-39 | a minted token verifies for seven days less one second |
| Session.ExpiredAfterSevenDays | lib/auth/session.ts:29-38 | seven days after minting the token is rejected |
| Session.WrongKeyFails | lib/auth/session.ts:31-33 | a token signed with another key never verifies |
| Session.WrongAlgFails | lib/auth/session.ts:31-33 | a token naming an algorithm other than HS256 never verifies |
| Session.FailuresIndistinguishable | lib/auth/session.ts:36-38 | malformed, expired and forged tokens all give the same null |
| Session.PinnedImpliesMiddleware | middleware.ts:25-29 | every token the routes accept passes the middleware |
| Session.MiddlewareAcceptsUnpinnedAlg | middleware.ts:28 | an HS384 token under the server key passes the middleware but not `verifySession` |
| Session.MiddlewareVerifies | middleware.ts:28 | `jwtVerify` with no `algorithms` option: a well-formed token under the key, with any HMAC algorithm, before `exp`; PinnedImpliesMiddleware and MiddlewareAcceptsUnpinnedAlg relate it to `verifySession` |
| Session.SessionCookie | lib/auth/session.ts:52-61 | the cookie holds the token with httpOnly, sameSite lax, path "/", secure only in production, and maxAge equal to the token lifetime |
| Session.GetSession | lib/auth/session.ts:41-50 | no "session" cookie gives null, otherwise the verification of its value |
| Http.StringField | app/api/auth/send-otp/route.ts:8-10 | a string field passes iff present and a string; a missing field reports "Required" |
| AppServer.WithUser | app/api/auth/send-otp/route.ts:29-32 | after the step a user exists for the address; an existing user leaves the store unchanged, otherwise exactly one user is added, the record the schema creates from the address with its defaults; codes and history are untouched |
| AppServer.WithUserKeepsValid | app/api/auth/send-otp/route.ts:29-32 | creating a missing user keeps the database invariant |
| AppServer.WithoutCodesKeepsValid | app/api/auth/send-otp/route.ts:35 | eviction keeps the database invariant |
| AppServer.WithoutCodes | app/api/auth/send-otp/route.ts:35 | `Otp.deleteMany` on the store; WithoutCodesKeepsValid states it keeps the invariant, and OtpModel.EvictCounts what it keeps |
| AppServer.IssueKeepsValid | app/api/auth/send-otp/route.ts:35-41 | evict-then-insert keeps the invariant, including one code per address |
| AppServer.WithCode | app/api/auth/send-otp/route.ts:41 | `Otp.create` appends one record with the next id; IssueKeepsValid states that after eviction it keeps one code per address |
| AppServer.WithLogin | app/api/auth/verify-otp/route.ts:47-51 | after the upsert the user exists with lastLogin now, and codes and history are untouched |
| AppServer.WithoutCodeAtKeepsValid | app/api/auth/verify-otp/route.ts:44 | deleting the used code keeps the invariant |
| AppServer.WithoutCodeAt | app/api/auth/verify-otp/route.ts:44 | `Otp.deleteOne` of the matched record; WithoutCodeAtKeepsValid states it keeps the invariant, and OtpModel.RemoveAt what it keeps |
| AppServer.WithLoginKeepsValid | app/api/auth/verify-otp/route.ts:47-51 | the login upsert keeps the invariant |
| AppServer.Server.SetSessionCookie | lib/auth/session.ts:52-61 | only the "session" cookie changes, to the session cookie for the token |
| AppServer.Server.ClearSessionCookie | lib/auth/session.ts:63-66 | the "session" cookie is deleted, every other cookie stays, and no session remains |
| AppServer.Server.CreateUserFor | app/api/auth/send-otp/route.ts:31 | the database moves exactly as `WithUser` |
| AppServer.Server.DeleteCodes | app/api/auth/send-otp/route.ts:35 | the database moves exactly as eviction of the normalised address |
| AppServer.Server.CreateCode | app/api/auth/send-otp/route.ts:41 | the database moves exactly as appending the code with the next id |
| AppServer.Server.DeleteCodeAt | app/api/auth/verify-otp/route.ts:44 | the database moves exactly as deleting that record |
| AppServer.Server.UpsertUser | app/api/auth/verify-otp/route.ts:47-51 | the database moves exactly as `WithLogin`, and the returned user is the stored one |
| AppServer.Server.TtlExpire | lib/db/models/otp.model.ts:20-24 | the TTL monitor removes a record iff its expiry has been reached, changes nothing else, and keeps the invariant |
| AppServer.Server.constructor | lib/auth/session.ts:4-9 | a started server holds its loaded key, empty collections, an empty jar, and a valid state |
| AppServer.Boot | lib/auth/session.ts:4-9 | the server exists iff the secret loads, and then starts valid with that key |
| SendOtpRoute.Validate | app/api/auth/send-otp/route.ts:8-22 | the body passes iff it is an object whose email is a string the email check accepts; otherwise the first issue's message |
| SendOtpRoute.Handle | app/api/auth/send-otp/route.ts:13-58 | the whole handler on the store; HandleKeepsValid, SuccessIff, RejectedChangesNothing, MailedCodeIsTheOnlyUsable, FailedInsertLeavesNoCode and FailedSendKeepsCode state its outcomes |
| SendOtpRoute.Issue | app/api/auth/send-otp/route.ts:24-57 | the steps after validation, with the fault's step having no effect; SuccessIff, FailedInsertLeavesNoCode and FailedSendKeepsCode state its outcomes |
| SendOtpRoute.HandleKeepsValid | app/api/auth/send-otp/route.ts:13-58 | every path, failing ones included, keeps the database invariant |
| SendOtpRoute.SuccessIff | app/api/auth/send-otp/route.ts:15-57 | 200 iff the body is valid and no call that runs throws, and its body is only the success message, never the code; a mail is sent iff 200; 400 iff the check fails; every other answer is 500 "Failed to send OTP. Please try again." |
| SendOtpRoute.RejectedChangesNothing | app/api/auth/send-otp/route.ts:15-22 | a rejected body changes no store |
| SendOtpRoute.MailedCodeIsTheOnlyUsable | app/api/auth/send-otp/route.ts:29-50 | after success the user exists, and a code works for the mailed address iff it is the mailed code and within ten minutes |
| SendOtpRoute.FailedInsertLeavesNoCode | app/api/auth/send-otp/route.ts:35-57 | when the insert throws, the earlier codes are already gone |
| SendOtpRoute.FailedSendKeepsCode | app/api/auth/send-otp/route.ts:41-57 | when the mail throws, the reply is the 500 and no mail goes out, yet the new code stays stored and is the only usable one for the address for ten minutes |
| SendOtpRoute.Post | app/api/auth/send-otp/route.ts:13-58 | the handler's database, outbox and reply equal `Handle`'s; the clock and cookies are untouched; the invariant holds |
| SendOtpRoute.IssueCode | app/api/auth/send-otp/route.ts:24-57 | the step sequence ends in `Issue`'s state and reply |
| VerifyOtpRoute.EmailIssue | app/api/auth/verify-otp/route.ts:8-9 | no email issue iff the email is a string the check accepts |
| VerifyOtpRoute.OtpIssue | app/api/auth/verify-otp/route.ts:10 | no otp issue iff the otp is a string of length exactly 6, digits not checked |
| VerifyOtpRoute.Validate | app/api/auth/verify-otp/route.ts:8-23 | the body passes iff both fields pass; the email's issue is reported first, and otherwise the otp's issue |
| VerifyOtpRoute.Handle | app/api/auth/verify-otp/route.ts:14-78 | the whole handler on the store; HandleKeepsValid, LoginIff, NoMatchChangesNothing and ReplayFails state its outcomes |
| VerifyOtpRoute.Verify | app/api/auth/verify-otp/route.ts:28-77 | the steps after validation, with the fault's step having no effect; LoginIff and LoginConsumesCode state its outcomes |
| VerifyOtpRoute.HandleKeepsValid | app/api/auth/verify-otp/route.ts:14-78 | every path keeps the database invariant |
| VerifyOtpRoute.LoginIff | app/api/auth/verify-otp/route.ts:16-77 | 200 iff the body is valid, an unexpired record holds that code for the normalised address, and nothing throws; a token is minted iff 200 |
| VerifyOtpRoute.ErrorReplies | app/api/auth/verify-otp/route.ts:14-78 | unparsable JSON answers 500 with nothing changed; a failed check answers 400 with the first issue and nothing changed; 400 otherwise only for a code that does not match; a throw at a step that runs answers 500 "Verification failed. Please try again." |
| VerifyOtpRoute.NoMatchChangesNothing | app/api/auth/verify-otp/route.ts:36-41 | without a match the reply is 400 "Invalid or expired OTP" and nothing changes |
| VerifyOtpRoute.LoginConsumesCode | app/api/auth/verify-otp/route.ts:44-70 | after login no code for the address remains, the user's lastLogin is now, and the reply carries id, email and role |
| VerifyOtpRoute.LoginYieldsSession | app/api/auth/verify-otp/route.ts:54-61 | the cookie set on login resolves to the user's claims for seven days, then to nothing |
| VerifyOtpRoute.ReplayFails | app/api/auth/verify-otp/route.ts:44 | replaying a successful request answers 400 |
| VerifyOtpRoute.Post | app/api/auth/verify-otp/route.ts:14-78 | database and reply equal `Handle`'s, the session cookie is set iff a token was minted, and the invariant holds |
| VerifyOtpRoute.LogIn | app/api/auth/verify-otp/route.ts:28-77 | the step sequence ends in `Verify`'s state and reply |
| LoginFlow.SentMailChecksOut | app/api/auth/send-otp/route.ts:38-44 | a mailed code has six characters and goes to an address the check accepted |
| LoginFlow.EntryChecksOut | app/api/auth/verify-otp/route.ts:8-11 | the body built from a mail passes the verify check unchanged |
| LoginFlow.MailedCodeLogsInOnce | app/api/auth/verify-otp/route.ts:30-61 | entering the mailed code within ten minutes logs in with a session for the address; entering it again fails |
| MeRoute.Get | app/api/auth/me/route.ts:4-29 | 200 with the claims' id, email and role iff a valid session exists; 401 "Not authenticated" without one; 500 if the cookie store throws |
| MeRoute.AnswersSignedClaims | app/api/auth/me/route.ts:6-21 | a freshly minted cookie answers with exactly the signed claims; no cookie answers 401 |
| LogoutRoute.Post | app/api/auth/logout/route.ts:4-15 | without a throw the cookie is gone and the reply is "Logged out successfully"; a throw gives 500 "Logout failed" with the jar unchanged |
| LogoutRoute.LogoutEndsSession | app/api/auth/logout/route.ts:4-7 | after logout the session route answers 401 and other cookies survive |
| LogoutRoute.LogoutDoesNotRevoke | app/api/auth/logout/route.ts:6 | logout revokes nothing: the same token sent again still yields its session |
| Middleware.Decide | middleware.ts:13-48 | redirect to login, carrying the path, iff protected without a valid session; redirect to the dashboard iff an auth route with one |
| Middleware.Run | middleware.ts:13-61 | a request redirects to login iff the path is matched, protected and has no valid session; to the dashboard iff matched, an auth route and with one |
| Middleware.Matched | middleware.ts:50-61 | the `config.matcher` pattern: after the slash, no "api", "_next" or "favicon" plus any character plus "ico" prefix, and no dot |
| Middleware.GuardedPagesMatched | middleware.ts:8-61 | every "/dashboard" or "/login" path without a dot is matched, so its guard runs |
| Middleware.ApiPathsUnmatched | middleware.ts:50-61 | a path under "/api" is never matched and passes the middleware untouched |
| Middleware.DottedPathsUnmatched | middleware.ts:50-61 | a path with a dot after the slash is never matched and passes with no session check, whatever its prefix |
| Middleware.ProtectedAndAuthDisjoint | middleware.ts:8-21 | no path is both protected and an auth route |
| Middleware.DashboardMatched | middleware.ts:50-61 | "/dashboard" and "/login" are matched and classified as intended |
| Middleware.NoRedirectLoop | middleware.ts:36-45 | a redirect's target never redirects back |
| Middleware.ProtectedNeedsSession | middleware.ts:24-40 | a protected page passes only with a cookie and a secret that verify |
| Middleware.NoSecretLocksDashboard | middleware.ts:25 | without a secret every protected page redirects to login |
| Middleware.HistoryAndApiUnguarded | middleware.ts:8-60 | "/history" passes without a session, and "/api/..." is not matched |
| Middleware.RouteSessionPassesMiddleware | middleware.ts:25-29 | a session the routes accept is never sent to login |
| EnhanceRoute.PromptIssue | app/api/enhance/route.ts:8-9 | no prompt issue iff it is a string of 10 to 10000 characters, with the short and long messages |
| EnhanceRoute.CategoryIssue | app/api/enhance/route.ts:10 | no category issue iff it is one of the five names |
| EnhanceRoute.Validate | app/api/enhance/route.ts:8-32 | the body passes iff both fields pass; the prompt's issue is reported first, and otherwise the category's issue |
| EnhanceRoute.Handle | app/api/enhance/route.ts:14-66 | the whole handler on the store; HandleKeepsValid, NoSessionStoresNothing, OnlySuccessStores, OracleFailureStoresNothing and SuccessAppendsOne state its outcomes |
| EnhanceRoute.HandleKeepsValid | app/api/enhance/route.ts:14-66 | the handler keeps the database invariant |
| EnhanceRoute.NoSessionStoresNothing | app/api/enhance/route.ts:16-22 | without a session the answer is 401 and nothing is stored |
| EnhanceRoute.OnlySuccessStores | app/api/enhance/route.ts:24-65 | a non-200 answer stores nothing, and 400 comes exactly from a failed check |
| EnhanceRoute.OracleFailureStoresNothing | app/api/enhance/route.ts:59-65 | a failing enhancement gives 500 with its message and stores nothing |
| EnhanceRoute.SuccessAppendsOne | app/api/enhance/route.ts:37-58 | success appends exactly one record owned by the session user with the prompt, category and service result, and the reply echoes it |
| EnhanceRoute.Post | app/api/enhance/route.ts:14-66 | database and reply equal `Handle`'s for the jar's session; only history and the id allocator change |
| HistoryRoute.OwnedBy | app/api/history/route.ts:20 | every result record is the user's and stored, and every stored record of the user is in the result |
| HistoryRoute.OwnedByCounts | app/api/history/route.ts:20 | each of the user's records appears exactly as often as it is stored, and no other record appears |
| HistoryRoute.OwnedByAppend | app/api/history/route.ts:20 | the query distributes over concatenation, so the user's records keep their stored order |
| HistoryRoute.Insert | app/api/history/route.ts:21 | insertion keeps newest-first order and adds exactly one element |
| HistoryRoute.SortNewestFirst | app/api/history/route.ts:21 | the sort is newest first and a permutation of its input |
| HistoryRoute.Limit | app/api/history/route.ts:22 | at most twenty items, a prefix of the input, and the whole input when it is short |
| HistoryRoute.Project | app/api/history/route.ts:26-33 | an item's id, prompts, createdAt and metadata come from its record, and its category names the record's category |
| HistoryRoute.ProjectAll | app/api/history/route.ts:25-34 | each item is the projection of the record in the same position |
| HistoryRoute.Get | app/api/history/route.ts:9-41 | 401 without a session; 500 when the query throws; otherwise 200 with at most twenty items |
| HistoryRoute.Newest | app/api/history/route.ts:20-22 | find, sort newest first, limit twenty; NewestSound and OmittedNoNewer state what it returns |
| HistoryRoute.NewestSound | app/api/history/route.ts:20-22 | the returned records are the user's, newest first, at most twenty |
| HistoryRoute.OmittedNoNewer | app/api/history/route.ts:20-22 | returned and omitted records together are the user's, and no omitted record is newer than a returned one |
| HistoryRoute.EveryOwnedRecordConsidered | app/api/history/route.ts:20-21 | every record of the user reaches the sort |
| HistoryRoute.ReplyListsOwnRecords | app/api/history/route.ts:20-34 | every reply item projects one of the user's records, newest first, at most twenty |
| ListToggle.RemoveAll | components/forms/ProjectContextForm.tsx:46-47 | filtering keeps exactly the other items, with their multiplicities |
| ListToggle.Toggle | components/forms/ProjectContextForm.tsx:44-49 | a present item disappears; an absent one is appended at the end; other items stay |
| ListToggle.RemoveAllAppend | components/forms/ProjectContextForm.tsx:46-47 | filtering distributes over concatenation |
| ListToggle.RemoveAbsent | components/forms/ProjectContextForm.tsx:46-47 | filtering an absent item changes nothing |
| ListToggle.ToggleTwiceAbsent | components/forms/ProjectContextForm.tsx:44-49 | toggling an absent item twice restores the list |
| ListToggle.ToggleTwicePresent | components/forms/ProjectContextForm.tsx:44-49 | toggling a present item twice moves it, once, to the end |
| ListToggle.ToggleKeepsOthersInOrder | components/forms/ProjectContextForm.tsx:46-48 | the other items keep their relative order |
| ListToggle.RemoveAllIdempotent | components/forms/ProjectContextForm.tsx:46-47 | filtering twice equals filtering once |
| ListToggle.RemoveAllKeepsDistinct | components/forms/ProjectContextForm.tsx:46-47 | filtering keeps a list duplicate-free |
| ListToggle.ToggleKeepsDistinct | components/forms/ProjectContextForm.tsx:46-48 | toggling keeps a list duplicate-free |
| ProjectContextForm.Get | components/forms/ProjectContextForm.tsx:40-42 | reading a field yields a value of that field |
| ProjectContextForm.UpdateField | components/forms/ProjectContextForm.tsx:40-42 | only the named field is replaced; every other field is equal |
| ProjectContextForm.ToggleFramework | components/forms/ProjectContextForm.tsx:44-50 | the frameworks list is toggled and every other field is unchanged |
| ProjectContextForm.ToggleFrameworkTwice | components/forms/ProjectContextForm.tsx:44-49 | toggling an absent framework twice restores the form |
| ProjectContextForm.ToggleFrameworkDistinct | components/forms/ProjectContextForm.tsx:46-48 | a duplicate-free frameworks list stays duplicate-free |
| ProjectContextForm.ToggleFrameworkKeepsOrder | components/forms/ProjectContextForm.tsx:46-48 | the other frameworks keep their relative order |
| FrontendQuestions.Get | components/forms/FrontendQuestions.tsx:39-41 | reading a field yields a value of that field |
| FrontendQuestions.Update | components/forms/FrontendQuestions.tsx:39-41 | only the named field is replaced |
| FrontendQuestions.ToggleList | components/forms/FrontendQuestions.tsx:43-49 | the chosen list is toggled; the other list and all scalar fields stay |
| FrontendQuestions.ToggleListIndependent | components/forms/FrontendQuestions.tsx:43-49 | toggling interactions leaves breakpoints, and vice versa |
| FrontendQuestions.ToggleListTwice | components/forms/FrontendQuestions.tsx:43-49 | toggling an absent item twice restores the data |
| FrontendQuestions.ToggleListDistinct | components/forms/FrontendQuestions.tsx:45-48 | a duplicate-free list stays duplicate-free |
| BackendQuestions.Get | components/forms/BackendQuestions.tsx:34-36 | reading a field yields a value of that field |
| BackendQuestions.Update | components/forms/BackendQuestions.tsx:34-36 | only the named field is replaced |
| BackendQuestions.ToggleDbOp | components/forms/BackendQuestions.tsx:38-44 | the operations list is toggled and every other field is unchanged |
| BackendQuestions.InitialToggles | components/forms/BackendQuestions.tsx:16-22 | the initial data is an authenticated GET with ["Read"]; toggling "Read" empties it, another op is appended |
| BackendQuestions.ToggleDbOpTwice | components/forms/BackendQuestions.tsx:38-44 | toggling an absent op twice restores the data |
| BackendQuestions.ToggleDbOpKeepsOrder | components/forms/BackendQuestions.tsx:40-42 | the other ops keep their relative order |
| Dashboard.CategoryApiMapInjective | app/dashboard/page.tsx:15-21 | the category map is injective |
| Dashboard.CategoryApiMapAccepted | app/dashboard/page.tsx:12-21 | every mapped value is accepted by the history category enum |
| Dashboard.RequestCategoryAccepted | app/dashboard/page.tsx:51-58 | a request the page builds never fails the enhance route's category check, and passes its whole check iff the prompt has 10 to 10000 characters |
| Dashboard.FailureMessage | app/dashboard/page.tsx:64-70 | the shown error is the reply's non-empty error, else "Enhancement failed"; a thrown error's message, else "Something went wrong" |
| Dashboard.DashboardPage.constructor | app/dashboard/page.tsx:40-44 | the page starts with an empty prompt, category Coding, idle, no result and no error |
| Dashboard.DashboardPage.HandleEnhance | app/dashboard/page.tsx:46-74 | a blank prompt sends nothing and changes nothing; otherwise the unchanged prompt is sent with the mapped category, and the page ends idle with either the result or the error |
| Dashboard.SentPromptsHaveContent | app/dashboard/page.tsx:47 | only prompts with a non-whitespace character are sent |
| HistoryPage.TruncateText | app/history/page.tsx:93-96 | a text that fits is unchanged; a longer one becomes its first maxLength characters plus "...", and always starts with the shown prefix |
| HistoryPage.TruncateDefault | app/history/page.tsx:93 | with the default bound of 150, a long text shows 153 characters |
| HistoryPage.CategoryConfig | app/history/page.tsx:161 | every category a stored record can carry gets its own badge, and "General" shows exactly for "general" and for names outside the enum |
| HistoryPage.StoredCategoriesHaveOwnBadge | app/history/page.tsx:37-43 | distinct stored categories get distinct badges |
| QualityMetrics.Clarity | components/dashboard/QualityMetrics.tsx:17 | clarity lies in 85..98, and is 98 iff the length mod 15 is 13 or 14 |
| QualityMetrics.Structure | components/dashboard/QualityMetrics.tsx:18 | structure is 90 + length mod 10, so the cap never clips |
| QualityMetrics.Completeness | components/dashboard/QualityMetrics.tsx:19 | completeness is 80 + length mod 20, never 100 |
| QualityMetrics.ScoresPeriodic | components/dashboard/QualityMetrics.tsx:17-19 | each score depends only on the length modulo 15, 10 and 20 |
| EnhancementProgress.StepAfter | components/dashboard/EnhancementProgress.tsx:12-29 | after n ticks the step is n until it reaches 3, then stays at 3 |
| EnhancementProgress.ProgressPercent | components/dashboard/EnhancementProgress.tsx:82 | the bar width is 25, 50, 75 or 100 percent, and 100 only on the last step |
| EnhancementProgress.ProgressMonotone | components/dashboard/EnhancementProgress.tsx:82 | the bar never shrinks as ticks accumulate |
| EnhancementProgress.Progress.constructor | components/dashboard/EnhancementProgress.tsx:20 | the indicator starts idle at step 0 |
| EnhancementProgress.Progress.SetEnhancing | components/dashboard/EnhancementProgress.tsx:22-33 | turning off resets the step to 0; turning on keeps it; the step stays within 0..3 |
| EnhancementProgress.Progress.Tick | components/dashboard/EnhancementProgress.tsx:28-30 | a tick adds one until step 3, then leaves it |
| EnhancementProgress.Progress.Label | components/dashboard/EnhancementProgress.tsx:35-69 | nothing renders while idle; otherwise the current step's label |
| ToastProvider.RemoveById | components/ui/use-toast.tsx:33-35 | removal drops every toast with the id and keeps each other toast exactly as often as it was shown |
| ToastProvider.RemoveByIdAppend | components/ui/use-toast.tsx:33-35 | removal distributes over concatenation, so order is preserved |
| ToastProvider.RemoveAbsentId | components/ui/use-toast.tsx:33-35 | removing an absent id changes nothing |
| ToastProvider.AllTimersClear | components/ui/use-toast.tsx:37-43 | once every scheduled timer fires, no toast is left |
| ToastProvider.Provider.constructor | components/ui/use-toast.tsx:31 | the provider starts with no toasts and no timers |
| ToastProvider.Provider.Show | components/ui/use-toast.tsx:37-43 | exactly one toast is appended, kind defaulting to success, and one timer for its id is scheduled |
| ToastProvider.Provider.Dismiss | components/ui/use-toast.tsx:33-51 | dismissal removes the toasts with that id |
| ToastProvider.Provider.FireTimer | components/ui/use-toast.tsx:42 | the oldest timer removes only the toasts with its own id |
| ToastProvider.UseToast | components/ui/use-toast.tsx:22-28 | the hook yields the context inside a provider, and fails with its message outside one |

## Left out

- Delivery of the email is not modelled. SMTP is I/O, so a sent mail is an entry in the `outbox`, and a failing send is the `SendMail` fault.
- The enhancement service call is an oracle parameter; it returns a result or a thrown message. The system prompt texts are constant template text.
- Signing is an ideal MAC. No HMAC-SHA256 is computed, and there is no base64url or JSON serialisation.
- A token string that is not a well-formed JWT is the `Malformed` case.
- The email validator's regular expression is the parameter `isEmail`. The model assumes only that an accepted address is not blank once normalised.
- `connectDB` is not modelled. A failed connection is one of the faults.
- Concurrency is not modelled; requests run one at a time. This excludes the race between two send-otp requests for the same address.
- The timing of the TTL sweeper is not modelled. `Server.TtlExpire` is the transition the sweeper may take, at any time.
- Database ids are not ObjectIds. Each is a natural number drawn from `nextId`, and a user id in the session claims is that number instead of a hex string.
- Mongo returns records with equal `createdAt` in an order it does not specify. The model sorts them stably, keeping stored order.
- The `updatedAt` timestamp that `timestamps: true` maintains on users and history records is not modelled; no route reads it. `createdAt` is modelled.
- Validation messages are the default messages of zod version 3 ("Required", "Expected string, received …", "Invalid enum value. Expected …, received '…'"). Version 4 words its defaults differently.
- Text.ToLower: only ASCII letters are lower-cased; full Unicode case mapping is out of scope.
- Lengths are counted in characters. The validation library counts UTF-16 code units, so a prompt with characters outside the Basic Multilingual Plane counts differently.
- Session.CreateSession: jose reads the clock twice when signing, once in `setIssuedAt` and once in `setExpirationTime`, so `exp` is `iat` plus seven days only when both reads fall in the same second. The model merges the two reads into the route's single `now`. Verifying reads the clock once, and that read is the request's `now` too.
- Middleware.Matched: it follows the matcher pattern on the raw path. Next.js's handling of data routes, locales and trailing slashes is out of scope.
- ProjectContextForm.UpdateField: the source accepts `any` value for a field. The model accepts only a value of the field's own type; FrontendQuestions.Update and BackendQuestions.Update are the same.
- HistoryRoute.Get: `getSession` is taken as not throwing, since its cookie store fails only outside a request scope; the 500 reply covers the connection and the query. EnhanceRoute.Handle makes the same assumption.
- Dashboard.FailureMessage: a non-string `error` field in a failed reply would be converted to text by the `Error` constructor. The model treats that field as a string or absent.
- HistoryPage.CategoryConfig: the source indexes a plain object, so a category equal to an inherited property name such as "constructor" or "toString" finds that property and does not fall back to "General". The model gives such a name the General badge. No stored record can carry one, because the schema's enum admits only the five category names.
- Rendering, animation, icons and date formatting are not modelled; neither are the components whose only job is rendering.
- Real timer delays are not modelled: the 800 ms interval, the 3000 ms toast delay and `setTimeout` ordering. A timer firing is the `Tick` or `FireTimer` call, and the oldest toast timer fires first.
