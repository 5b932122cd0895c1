# InsuraAI: a Dafny model of the login and policy core

InsuraAI keeps a user's insurance policies, reads the fields of an uploaded policy document,
and mails renewal reminders. This project models the parts of it that decide who may sign in
and what happens to the policy records.

- **The one-time-passcode login.** `requestOtp` and `verifyOtpHandler` keep three keys per
  (channel, identifier) pair in a time-to-live cache: the bcrypt hash of the code, an attempt
  counter and a resend cooldown marker. The model proves the following:
  - at most `OTP_MAX_ATTEMPTS` comparisons are made per issued code;
  - the keys of different pairs never collide;
  - the request side keys on the raw identifier and the verify side on the trimmed one, so a
    padded phone can never be verified.
- **The identity side.**
  - The user document: its defaults, the trim setters and the sparse unique indexes on email,
    phone and Google id, plus the password pre-save hook.
  - Password signup and login, and the JWT the logins issue.
  - Google sign-in.
  - The bearer-token middleware and `GET /me`.
- **The policy routes.** Create, list, get, update, delete, renew and remind.
- **The server.** The CORS origin check and the daily job that first expires overdue policies
  and then mails renewal reminders.
- **The extraction route.** It strips code fences from the language model's answer and then
  fills missing fields with the regular-expression fallbacks. The model follows JavaScript's
  regular-expression semantics: leftmost match, ordered alternation, greedy runs with
  backtracking, and the `/i` and `/g` flags.
- **The dashboard's list.** The search, status and sort applied to the fetched policies, and
  the list updates after a delete, a renewal or an added policy.
- **The "Add New Policy" dialog.** Its file check, form state, extraction mapping and submitted
  multipart body.

## How the model is built

Each source file's logic is a module:

| file | module |
|---|---|
| `otp_controller.dfy`, `otp_properties.dfy` | authController's passcode half |
| `google_auth.dfy` | authController's Google half |
| `otp_utils.dfy` | the passcode utilities |
| `users.dfy` | the user model |
| `auth_routes.dfy` | the password routes |
| `auth_middleware.dfy` | the middleware and `getMe` |
| `policy_routes.dfy` | the policy routes |
| `server.dfy` | the server's CORS check and daily job |
| `extract_routes.dfy` | the extraction route |
| `dashboard.dfy` | the dashboard page |
| `add_policy_modal.dfy` | the dialog |

Some modules are shared stand-ins:

- `TtlCache` for Redis;
- `Bcrypt` for bcryptjs;
- `Jwt` for jsonwebtoken;
- `Text` for the string built-ins;
- `Wrappers` and `Http` for options, results and replies.

State the source updates in place is a class whose methods are proved against specification
functions. These classes are:

- `TtlCache.Cache`;
- `Users.UserStore`;
- `PolicyRoutes.PolicyStore`;
- `AuthMiddleware.RequestContext` (the request's `req.user`);
- `AddPolicyModal.Modal` (the React state).

The properties are lemmas about those functions. The handlers are methods that read and write
those stores. Randomness (the passcode draw), salts, the clock, the delivery gateways, token
decoding, Google's token check, the language model's answer and `JSON.parse` are parameters.

## Model

| member | source | states |
|---|---|---|
| OtpController.ChannelOf | src/controllers/authController.js:30 | the channel is email exactly when `via` is "email"; anything else, including no `via`, is sms |
| OtpController.KeyInjective | src/controllers/authController.js:18-20 | two cache keys are equal iff they have the same kind, channel and identifier, so challenges of different pairs never share a key |
| OtpController.ChallengeKeysDistinct | src/controllers/authController.js:18-20 | the hash, counter and cooldown keys of one pair are three different keys |
| OtpController.RawIdentifier | src/controllers/authController.js:29 | the request side uses the phone whenever one is present, otherwise the email, untrimmed |
| OtpController.DrawOtp | src/utils/otp.js:7-17 | the drawn passcode has exactly OTP_LENGTH decimal digits and no leading zero |
| OtpController.RequestOtp | src/controllers/authController.js:22-68 | the reply, the cache contents and the delivery made equal those of the request specification, and any code sent is a well-formed passcode |
| OtpController.IssueOtp | src/controllers/authController.js:41-47 | the cache afterwards is the old cache with the hash stored under the passcode key, the attempt counter gone and the cooldown started |
| OtpController.CounterRoundTrip | src/controllers/authController.js:124-125 | reading back a counter value the handler wrote with `String` gives the same number through `Number` |
| OtpController.VerifyOtpHandler | src/controllers/authController.js:71-175 | the reply, the cache contents and the user collection afterwards equal those of the verify specification, and the cache stays well formed |
| OtpController.CheckOtp | src/controllers/authController.js:98-145 | the verdict and the cache afterwards are those the verify specification gives for the old cache: not requested, too many attempts (hash and counter purged), invalid (attempt counted), or matched (all three keys purged) |
| OtpController.FindOrCreateOtpUser | src/controllers/authController.js:146-160 | the user and the collection afterwards are the find-or-create resolution of the identifier over the old collection |
| OtpProperties.RequestWithoutIdentifier | src/controllers/authController.js:24-27 | without a phone or email the request answers 400, stores nothing and sends nothing |
| OtpProperties.RequestDuringCooldown | src/controllers/authController.js:33-36 | while the cooldown marker is live the request answers 429, stores nothing and sends nothing |
| OtpProperties.RequestIssuesChallenge | src/controllers/authController.js:38-63 | past the gates, the code is sent once to the phone for sms or the email for email. On delivery, the stored hash verifies exactly that code, the counter is reset and the cooldown is armed. On failure, the hash and cooldown are removed and the reply is 500. No other key changes |
| OtpProperties.PhoneWinsOverChannel | src/controllers/authController.js:29-30 | with both a phone and an email and `via` "email", the challenge is keyed by the phone on the email channel and the code goes to the email address |
| OtpProperties.VerifyMissingFields | src/controllers/authController.js:76-78 | a missing code or identifier answers 400 and changes neither the cache nor the users |
| OtpProperties.VerifyNotRequested | src/controllers/authController.js:98-122 | with no live hash for the trimmed identifier the answer is 400 "OTP expired or not requested" and nothing changes |
| OtpProperties.VerifyCoreEffects | src/controllers/authController.js:124-145 | one verify against a live hash increments the counter and re-arms it. Past the cap it purges the hash and counter without comparing. A mismatch keeps the hash; a match purges all three keys. Keys of other pairs are untouched |
| OtpProperties.IssuedChallengeInv | src/controllers/authController.js:38-47 | a request that went through leaves the challenge invariant with no comparison made |
| OtpProperties.AttemptKeepsInv | src/controllers/authController.js:124-145 | a verify call preserves the challenge invariant, counting one more comparison exactly when it compares |
| OtpProperties.WaitKeepsInv | src/controllers/authController.js:41-47 | time passing preserves the challenge invariant |
| OtpProperties.ComparisonBound | src/controllers/authController.js:124-145 | from any state satisfying the invariant, any sequence of verify calls and waits makes at most OTP_MAX_ATTEMPTS comparisons in total |
| OtpProperties.AtMostMaxComparisons | src/controllers/authController.js:22-175 | a code issued by a request is compared with its hash at most OTP_MAX_ATTEMPTS times, whatever calls and waits follow |
| OtpProperties.WrongCodesCounted | src/controllers/authController.js:124-142 | under the cap each wrong code is answered "Invalid OTP", the hash stays and the counter rises by one per call |
| OtpProperties.ExhaustionFiresLate | src/controllers/authController.js:124-134 | on a fresh challenge OTP_MAX_ATTEMPTS wrong codes each get "Invalid OTP", and the next call gets "Too many attempts" whatever its code. That call purges the hash and counter and leaves the cooldown marker as it was |
| OtpProperties.RunAttemptsSplit | src/controllers/authController.js:124-145 | running two batches of verify calls equals running their concatenation |
| OtpProperties.PaddedIdentifierNeverVerifies | src/controllers/authController.js:29-47 | a phone with surrounding blanks gets its code stored under the padded key, but verifying that code with the same body answers "OTP expired or not requested" |
| OtpProperties.ResolveOtpUserSound | src/controllers/authController.js:146-160 | the resolved user is in the collection and carries the identifier as phone (phone sent) or email. The unique indexes hold, and the collection gains at most that one account with the next id |
| OtpUtils.GenerableLengths | src/utils/otp.js:13-17 | `crypto.randomInt` accepts the default length 6 and length 14, and refuses lengths 15 and 0 |
| OtpUtils.GenerateNumericOtp | src/utils/otp.js:13-17 | succeeds iff the length is generable. The result then has exactly that many digits, no leading zero, a value in [10^(n-1), 10^n - 1], and is that value's decimal spelling |
| OtpUtils.HashOtp | src/utils/otp.js:22-25 | the stored hash verifies the code it was made from |
| OtpUtils.HashVerifyRoundTrip | src/utils/otp.js:22-32 | `verifyOtp(c, hashOtp(c))` holds, and any other code is refused against that hash |
| Bcrypt.CompareOwnHash | models/user.js:65-67 | a secret matches its own hash whatever the salt |
| Bcrypt.CompareOnlyOwnHash | models/user.js:65-67 | a candidate matches a secret's hash iff it is that secret |
| TtlCache.Expire | src/controllers/authController.js:41-47 | exactly the keys whose expiry lies after now survive, with their values unchanged |
| TtlCache.Lookup | src/controllers/authController.js:33 | `GET` yields a value iff the key is stored, and then the stored value |
| TtlCache.ExpireShrinks | src/controllers/authController.js:41-47 | expiring later is the same as expiring twice, and never brings a key back |
| TtlCache.Cache.Set | src/controllers/authController.js:41 | `SET` with `EX` writes the value with expiry now + ttl; other keys are unchanged |
| TtlCache.Cache.Del | src/controllers/authController.js:42 | `DEL` removes exactly that key |
| TtlCache.Cache.Tick | src/controllers/authController.js:41-47 | after time passes the entries are the old ones expired at the new time |
| Users.MaterializeDefaults | models/user.js:4-53 | a user created with no fields has no name, picture or password, an unverified email and no provider |
| Users.MaterializeTrims | models/user.js:10-23 | stored email and phone are the trimmed given values |
| Users.SparseUniqueFields | models/user.js:10-30 | no two users share an id, a non-null email, a phone or a Google id |
| Users.InsertKeepsUnique | models/user.js:10-30 | inserting a document that fits keeps the unique indexes |
| Users.ReplaceKeepsUnique | models/user.js:10-30 | replacing a document by one that fits the others keeps the unique indexes |
| Users.FindOne | src/controllers/authController.js:211-215 | `findOne` finds a document iff one matches, and it is a matching document of the collection |
| Users.FindById | middleware/authMiddleware.js:21 | a found document has the requested id, and an existing id is always found; no id finds nothing |
| Users.PasswordRoundTrip | models/user.js:57-67 | a user created with password p matches exactly p |
| Users.ResaveKeepsPassword | models/user.js:57-62 | saving without touching the password keeps the stored hash and every login result |
| Users.ChangedPasswordIsHashed | models/user.js:57-67 | a new password is stored hashed and then matches exactly that password |
| Users.SaveLoadedDocument | models/user.js:57-62 | saving a loaded document with its password untouched replaces it in place and keeps the indexes, or fails with a duplicate key and changes nothing |
| Users.UserStore.Create | models/user.js:4-53 | inserts the materialised document with the next id when it fits the indexes, otherwise fails with a duplicate key and changes nothing |
| Users.UserStore.Save | models/user.js:57-62 | the result and collection are those of running the pre-save hook and replacing the stored document |
| Jwt.Sign | routes/authRoutes.js:18-22 | the token carries exactly the given claims and lives 365 days |
| Jwt.SignedTokenLifetime | routes/authRoutes.js:18-22 | a freshly signed token is accepted at a later time iff that time is within 365 days of signing |
| GoogleAuth.ChangedIffDifferent | src/controllers/authController.js:232-236 | the `changed` flag is raised iff the assignments change the account. Only the Google id (when the account had none), the name and the picture can change |
| GoogleAuth.NullEmailUpsertHijacks | src/controllers/authController.js:217-218 | as written, a Google account without email signs in as an unrelated phone-only user |
| GoogleAuth.FoundAccountStaysBound | src/controllers/authController.js:232-237 | an account found bound to the sign-in stays bound through the update and save, or the save fails with a duplicate key and nothing changes |
| GoogleAuth.ResolveBindsAccount | src/controllers/authController.js:209-237 | with the corrected filter every sign-in resolves to an account bound to the Google id or the email. A failure is a duplicate key and leaves the collection unchanged. The collection either keeps its size or gains exactly the resolved account |
| GoogleAuth.KnownGoogleIdResolvesToAccount | src/controllers/authController.js:211-212 | a known Google id resolves to that account, keeping its id and adding no account |
| GoogleAuth.KnownEmailLinksAccount | src/controllers/authController.js:213-236 | a known email on an account without a Google id links that account: same id, the Google id set, nothing added |
| GoogleAuth.UnknownSignInCreatesAccount | src/controllers/authController.js:217-230 | with ids below the counter, a sign-in that the upsert filter as written matches nowhere (without an email: only when every account has one) always succeeds and appends exactly one account with the next id, provider google, the Google id, the lower-cased email (null when there is none) and the verified flag |
| GoogleAuth.EmaillessSignInTakesExistingAccount | src/controllers/authController.js:211-218 | as written, a sign-in without email whose Google id is unknown gets an existing account without an email whenever there is one: nothing is inserted or linked, and the account returned does not carry the Google id |
| GoogleAuth.GoogleGates | src/controllers/authController.js:185-263 | the gates fire in order with 400, 500, 401 and 401, then an unreachable database answers 500; no error other than 409 touches the collection |
| GoogleAuth.GoogleSignIn | src/controllers/authController.js:182-285 | the reply and collection equal those of the sign-in specification, which resolves the account with the upsert filter as written and answers 500 when the database is down, and the indexes still hold |
| GoogleAuth.ResolveAccount | src/controllers/authController.js:209-237 | the account found or created and the collection afterwards are those of the lookup specification: by Google id, then email, then the upsert filter as written (`{ email: null }` when there is no email), else a new account |
| GoogleAuth.UpdateAccount | src/controllers/authController.js:232-236 | an account whose profile the payload does not change is returned unsaved; otherwise the linked profile is saved, with the save's outcome |
| AuthRoutes.SignupInsertFits | routes/authRoutes.js:61-65 | once the email is free, the new document fits the unique indexes |
| AuthRoutes.SignupExistingEmail | routes/authRoutes.js:61-63 | a taken email answers 400 and creates nothing |
| AuthRoutes.SignupCreatesAccount | routes/authRoutes.js:58-75 | a fresh email creates exactly one account with the trimmed email and the next id. It answers 200 with that account and a 365-day token whose claims are `{id}`, and the account's password matches exactly the one given |
| AuthRoutes.Signup | routes/authRoutes.js:58-75 | the reply and collection equal those of the signup specification, and the indexes still hold |
| AuthRoutes.LoginTokenOnlyOnMatch | routes/authRoutes.js:78-95 | login succeeds iff the account for the email exists and the password matches, and then the token carries that account's id |
| AuthRoutes.LoginUniformRejection | routes/authRoutes.js:81-88 | an unknown email and a wrong password get the same 401 answer |
| AuthRoutes.LoginPasswordlessAccount | routes/authRoutes.js:81-93 | logging in to an account without a password (OTP or Google user) makes bcrypt throw, giving 500 |
| AuthRoutes.SignupThenLogin | routes/authRoutes.js:58-95 | after a signup with password p, logging in with the same email and p succeeds and answers with the new account, which has the next id |
| AuthMiddleware.SecondFieldOf | middleware/authMiddleware.js:13 | `split(" ")[1]` is the word after the first space, and nothing when there is no space |
| AuthMiddleware.MissingBearer | middleware/authMiddleware.js:10-37 | without a header starting "Bearer" the request is refused with 401 "no token" |
| AuthMiddleware.BearerTokenResolves | middleware/authMiddleware.js:13-24 | a valid unexpired bearer token whose `id` or `sub` names a user passes the request on with that user |
| AuthMiddleware.LoginClaimsResolve | middleware/authMiddleware.js:20 | both the `{id}` tokens and the Google `{sub}` tokens name their account |
| AuthMiddleware.FallbackTokenUnresolvable | middleware/authMiddleware.js:20-24 | the OTP fallback token `{identifier}` passes with no user attached rather than being refused |
| AuthMiddleware.RequestContext.Guard | middleware/authMiddleware.js:6-39 | the request is rejected with the middleware's status and message, or passed on with `req.user` set to the resolved user |
| AuthMiddleware.GetMeAfterGuard | src/controllers/authController.js:287-311 | for a stored user `GET /me` returns that user's profile (without the timestamps, see below), which has no password field; with no user on the request it answers 500 |
| PolicyRoutes.NewPolicy | routes/policyRoutes.js:56-77 | the new policy has the given id, owner, number and end date, falls due 15 days before its end, and has a file URL iff a file was uploaded |
| PolicyRoutes.Filter | routes/policyRoutes.js:91-99 | the listed policies are exactly the caller's |
| PolicyRoutes.GetPolicy | routes/policyRoutes.js:102-111 | a policy is returned iff the caller owns one with that id, and then it is that policy |
| PolicyRoutes.UpdateAsWrittenAlwaysFails | routes/policyRoutes.js:127-141 | as written, updating an owned policy always answers 500 and saves nothing |
| PolicyRoutes.UpdateChangesGivenFields | routes/policyRoutes.js:135-141 | the corrected update changes exactly the truthy fields of the body; id, owner, number, due date and file stay, and an empty body changes nothing |
| PolicyRoutes.RemindGuards | routes/policyRoutes.js:192-231 | a reminder is only ever sent to the policy owner's own non-empty address at the owner's request; 403 and 400 send nothing |
| PolicyRoutes.PolicyStore.Create | routes/policyRoutes.js:34-87 | a number the caller already has answers 400 and an unreadable end date 500, both changing nothing. Otherwise the new policy is appended with the next id and answered with 201, keeping the collection's invariant |
| PolicyRoutes.PolicyStore.Delete | routes/policyRoutes.js:114-123 | removes exactly the caller's policy with that id, keeping the others in order; otherwise 404 and nothing changes |
| PolicyRoutes.PolicyStore.Update | routes/policyRoutes.js:125-149 | as written: 500 without a caller, 404 when the caller owns no policy with that id, and 500 for the caller's own policy, since line 137 throws before the save; the collection never changes |
| PolicyRoutes.PolicyStore.Renew | routes/policyRoutes.js:153-191 | an unknown id answers 404 and a non-owner 403, both changing nothing. The owner's policy gets its end date moved by the renewal months, a due date 15 days earlier and status active |
| PolicyRoutes.DeleteRemovesOnlyTarget | routes/policyRoutes.js:114-123 | removing one policy leaves no policy with its id and keeps every other policy |
| PolicyRoutes.RemoveKeepsWellFormed | routes/policyRoutes.js:114-123 | removing one policy keeps ids below the counter, ids distinct and policy numbers distinct per owner |
| Server.CorsExact | server.js:27-52 | an origin passes iff it is absent, empty or exactly one of the three allowed origins; a trailing slash or different case is refused |
| Server.ExpireOverdueSound | server.js:91-94 | exactly the active policies ending before today become expired and nothing else changes; afterwards no active policy is overdue and a second run changes nothing |
| Server.DueForRenewal | server.js:98-101 | the selected policies are exactly the active ones whose renewal date has come |
| Server.NoReminderForExpired | server.js:91-101 | no policy expired in this run is selected for a reminder |
| Server.ReminderFor | server.js:103-117 | a reminder goes to the owner's non-empty address and names the policy's number |
| Server.SendsSound | server.js:103-117 | at most one mail per selected policy, each to its owner's address. When all deliveries succeed, every selected policy whose owner has an address gets its mail |
| Server.ExpireKeepsWellFormed | server.js:91-94 | the expiry step keeps the collection's invariant |
| Server.SendReminders | server.js:103-117 | the loop sends exactly the mails of the reminder specification |
| Server.DailyJob | server.js:85-122 | the collection becomes its expiry at today, and the mails are those for the policies due after that step |
| ExtractRoutes.RemoveFencesKeepsPlain | routes/extractRoutes.js:77 | an answer without backticks passes the fence removal unchanged |
| ExtractRoutes.FencedAnswerUnwrapped | routes/extractRoutes.js:74-78 | a trimmed, backtick-free body wrapped in a json code fence comes out of the fence stripping as the body itself |
| ExtractRoutes.PolicyNumberFallbackSound | routes/extractRoutes.js:88-91 | a fallback policy number is a non-empty run of letters, digits and dashes that occurs in the text |
| ExtractRoutes.NumberLabelGivesToken | routes/extractRoutes.js:89 | after "Policy Number: " the fallback captures the whole following token |
| ExtractRoutes.LabelPrefixCaptured | routes/extractRoutes.js:89 | the alternation also matches "No" inside a longer word: "Policy Nominee: Asha" yields "minee" |
| ExtractRoutes.AmountFallbackDigits | routes/extractRoutes.js:101-114 | an amount fallback is a string of digits, with the commas removed |
| ExtractRoutes.DatesWellFormed | routes/extractRoutes.js:94 | every date match has the form dd/mm/yyyy or dd-mm-yyyy and occurs in the text |
| ExtractRoutes.FallbacksOnlyFillGaps | routes/extractRoutes.js:88-114 | the fallbacks never overwrite a filled field, touch no other key and drop no key |
| ExtractRoutes.FallbackValuesShape | routes/extractRoutes.js:88-114 | fallback amounts are digit strings, and a fallback policy number is the regular-expression capture |
| ExtractRoutes.DateFallbackRule | routes/extractRoutes.js:93-99 | with fewer than two dates nothing changes; otherwise the first two dates fill the missing start and end dates |
| ExtractRoutes.Extract | routes/extractRoutes.js:18-124 | without a file the answer is 400. Otherwise it is 200 with the parsed answer (or `{}` when it does not parse) completed by the fallbacks |
| ExtractRoutes.StripAnswer | routes/extractRoutes.js:75-78 | the content parsed is the answer trimmed, with its code fences removed and trimmed again when it starts with one |
| ExtractRoutes.FillPolicyNumber | routes/extractRoutes.js:88-91 | a missing policy number gets the expression's capture when it matched; every other field is unchanged |
| ExtractRoutes.FillDateFields | routes/extractRoutes.js:93-99 | with both dates present or fewer than two dates in the text nothing changes; otherwise each missing date gets the first or second date found |
| ExtractRoutes.FillAmount | routes/extractRoutes.js:101-114 | a missing amount gets the labelled number with its commas removed when the expression matched; every other field is unchanged |
| Dashboard.OrderOf | insuraai-frontend/src/pages/Dashboard.jsx:77-92 | only the four menu values select an order; any other key leaves the list unsorted |
| Dashboard.SearchTerm | insuraai-frontend/src/pages/Dashboard.jsx:61-68 | a blank query filters nothing |
| Dashboard.SelectedMembers | insuraai-frontend/src/pages/Dashboard.jsx:61-70 | a policy is listed iff it is fetched and matches both the search term and the status filter |
| Dashboard.NoFilterKeepsAll | insuraai-frontend/src/pages/Dashboard.jsx:58-70 | a blank query and the status "all" list every fetched policy in order |
| Dashboard.FilteredSorted | insuraai-frontend/src/pages/Dashboard.jsx:58-95 | the list is a permutation of the selection, sorted by the chosen order, and is the selection itself when no order is chosen |
| Dashboard.SortInPlace | insuraai-frontend/src/pages/Dashboard.jsx:72-92 | the array ends sorted by the comparator's rank and is a permutation of the original |
| Dashboard.WithoutPolicyMembers | insuraai-frontend/src/pages/Dashboard.jsx:107 | after removal the entries are exactly those with another id |
| Dashboard.WithoutAbsentPolicy | insuraai-frontend/src/pages/Dashboard.jsx:107 | removing an id the list does not hold leaves it unchanged |
| Dashboard.AfterDelete | insuraai-frontend/src/pages/Dashboard.jsx:98-116 | the list changes only after a confirmed, successful delete, and then keeps exactly the entries with another id |
| Dashboard.AfterRenew | insuraai-frontend/src/pages/Dashboard.jsx:118-136 | a successful renewal replaces the entries with that id by the renewed policy in place; a failed one changes nothing |
| Dashboard.AfterAdd | insuraai-frontend/src/pages/Dashboard.jsx:143-146 | the added policy goes last and the previous entries keep their order |
| Dashboard.AddThenDelete | insuraai-frontend/src/pages/Dashboard.jsx:98-146 | deleting a just-added policy whose id was new gives the previous list back |
| Dashboard.RenewKeepsIds | insuraai-frontend/src/pages/Dashboard.jsx:127-129 | a renewal keeping the policy's id leaves every id of the list in place |
| AddPolicyModal.AssignSetsOnlyName | insuraai-frontend/src/components/AddPolicyModal.jsx:38-40 | the spread update sets the named field, keeps every other value and keeps the names distinct. An existing name stays in place; a new name goes last |
| AddPolicyModal.ExtractedForm | insuraai-frontend/src/components/AddPolicyModal.jsx:60-68 | the form gets the seven initial names, the five non-date values are the extracted ones or the defaults, the two dates are their converted values (empty when absent), and the mapping succeeds iff both dates convert |
| AddPolicyModal.Submission | insuraai-frontend/src/components/AddPolicyModal.jsx:88-95 | the body holds every form field in order, plus a file part iff a file is chosen and the scan tab is open |
| AddPolicyModal.Modal.FileChange | insuraai-frontend/src/components/AddPolicyModal.jsx:23-35 | a file is accepted iff it is a JPEG, PNG or PDF of at most 10 MiB. Acceptance replaces the file and clears the extracted flag; a refusal changes nothing |
| AddPolicyModal.Modal.Change | insuraai-frontend/src/components/AddPolicyModal.jsx:38-40 | the form becomes the spread update with the field, keeping names distinct |
| AddPolicyModal.Modal.Extract | insuraai-frontend/src/components/AddPolicyModal.jsx:43-80 | with a file and a successful answer whose dates convert, the form is refilled and marked extracted; otherwise nothing changes |
| AddPolicyModal.Modal.BuildSubmission | insuraai-frontend/src/components/AddPolicyModal.jsx:81-95 | the loop builds exactly the submission body of the current state |
| AddPolicyModal.SubmittedAfterExtract | insuraai-frontend/src/components/AddPolicyModal.jsx:60-95 | after an extraction the submitted body is the seven form fields under their names, then the file |
| Text.ParseDecimalString | src/controllers/authController.js:124-125 | reading back a number's decimal spelling gives the number |
| Text.DecimalStringLength | src/utils/otp.js:13-17 | a number in [10^(k-1), 10^k - 1] is spelled with exactly k digits |
| Text.TrimProperties | src/controllers/authController.js:81-83 | a trimmed string has no white space at either end, and trimming is idempotent |

## Left out

- Configuration comes from the environment (`OTP_TTL_SECONDS`, `OTP_RESEND_COOLDOWN_SECONDS`,
  `OTP_MAX_ATTEMPTS`, `OTP_LENGTH`, `GOOGLE_CLIENT_ID`, the JWT secret). It is fixed at the
  defaults; a missing Google client id is the `clientConfigured` flag.
- Redis connection errors (src/config/redisClient.js): cache operations always succeed.
- Bcrypt internals: hashing is an injective stand-in with the salt embedded. Bcrypt's 72-byte
  truncation of secrets is not modelled.
- `toLowerCase`, `trim` and `\s` cover ASCII case folding and JavaScript's white space
  characters. Unicode case mappings are not modelled.
- A request body whose `email` or `policyNumber` is not a string (undefined, numbers) is not
  modelled. Bodies carry strings or absent fields.
- GoogleAuth.GoogleSignIn: database errors are one `dbUp` flag. When it is off, the lookups and the
  fallback `User.create` of src/controllers/authController.js:245-264 all fail and the answer is 500.
  A partial failure is not modelled: a lookup or the save failing with an error other than a
  duplicate key while the fallback `User.create` then succeeds, or fails validation with 422. With
  the database up, any failed insert or save answers 409, as the duplicate-key case does.
- AuthMiddleware.GetMeAfterGuard: the `createdAt` and `updatedAt` timestamps Mongoose keeps for
  users (`timestamps: true`) are not modelled, so the profile `AuthMiddleware.GetMe` returns lacks
  the `createdAt` of src/controllers/authController.js:305.
- Concurrency between requests: every handler runs atomically on the stores.
- Delivery: `sendOtpSms`, `sendOtpEmail` and `sendEmail` (src/utils/senders.js) are a gateway
  predicate saying whether delivery succeeds. Rate limiters and logging are not modelled.
- OCR (pdf-parse, tesseract), the OpenAI call, multer, Cloudinary and file unlinking are
  parameters. The extraction's own 500 for their failures is not modelled.
- `JSON.parse` is a parameter returning string-valued fields or nothing. Answers that parse to
  `null`, arrays or non-string values are not modelled.
- Dates are whole day numbers. `new Date`, `setMonth` (a parameter of
  PolicyRoutes.PolicyStore.Renew), `toISOString` (a parameter of the dialog) and the dashboard's
  `daysLeft` and due-soon counters are not modelled.
- The debug payloads of the OTP replies and all console output are not modelled.
- models/policy.js is not part of this model. The policy record has the fields the routes read
  and write, and a new policy's status is "active".
- Signature cryptography of JWTs: `jwt.verify` is a decode parameter plus the expiry check.
- Mongoose's ObjectId cast errors for malformed ids: ids are numbers.
- Dashboard.SortInPlace: the stability of `Array.prototype.sort` is not stated. Only sortedness
  and permutation are proved.
- Network I/O of the frontend (`fetch`, toasts, loading flags): the extraction answer is a
  parameter of AddPolicyModal.Modal.Extract.
- The `loading` flag of the dialog and the React rendering are not modelled.

## Findings

| source | as written | input that shows it | evidently intended | confidence | as-written member | corrected member |
|---|---|---|---|---|---|---|
| src/controllers/authController.js:217-218 | the upsert filter `$or: [{ googleId }, { email }]` uses `email: null` when the Google payload has no email, which matches every account without an email | a phone-only user created by the passcode login, then a Google sign-in without email: the Google user is signed in as the phone user | match on the email only when there is one | not executed | GoogleAuth.NullEmailUpsertHijacks | GoogleAuth.ResolveBindsAccount |
| routes/policyRoutes.js:127-141 | the handler reads `sumInsured` and `deductible`, which are not among the names destructured from the body; the ReferenceError turns every update of an owned policy into a 500 | `PUT /api/policies/<own id>` with any body | the two fields destructured like the others, so the truthy fields are written | not executed | PolicyRoutes.UpdateAsWrittenAlwaysFails | PolicyRoutes.UpdateChangesGivenFields |
