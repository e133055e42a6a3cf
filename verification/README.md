# Parent accounts and one-time codes of the TinyMath backend, in Dafny

This project models the core of the TinyMath (ABATECH) authentication backend. A parent
account is registered unverified and holds a single one-time-code slot, made of a code
and its expiry. That slot is filled by registration, by a login attempt on an unverified
account, by a resend request and by a forgot-password request. It is emptied by a
successful email verification or a successful password reset. Next to the accounts sit
the child sub-profiles, which have an age-tiered starting level and optional-merge
progress updates.

Every handler is a pure function from `(store, now, request, collaborator outcomes)` to
`(store', reply)`:

- The account store is `map<Email, Account>`, keyed by the unique email. The child store
  is `map<ChildId, Child>`.
- A reply is the HTTP status and JSON body that the controller sends, with its exact
  message texts.
- `now` is an `int` in milliseconds.
- The random code is a `CodeValue` parameter in [100000, 999999]. It is stored as its
  decimal text (`Codes.CodeText`).
- The password hasher is a parameter `hash: string -> Digest`. A login matches when
  `hash(password)` equals the stored digest.
- The email provider's answer is a `bool` parameter `mailed`.
- Store-assigned identifiers are parameters.

Modules follow the program: `UserModel` and `ChildModel` are the two schemas. `Replies`
holds the response shapes. `AuthController` and `ChildController` hold the handlers of
`controllers/authController.js`. `CodeLifecycle` and `ChildProperties` hold the properties
that relate several calls. `Codes` holds the code text and `Wrappers` the `Option` type.

Behaviours of the code that the model keeps:

- `verifyEmail` accepts a code at its exact expiry instant, because the code rejects only
  when `expires < now`. `resetPassword` refuses it, because it needs `expires > now`.
- `verifyEmail` answers 400 (not 404) for an unknown email.
- An unverified login re-issues a one-hour code and refuses. The password is not checked.
- Emails are compared case-sensitively.
- `resetPassword` is a lookup followed by a save, not an atomic filtered update.

## Model

| member | source | states |
|---|---|---|
| Codes.CodeText | controllers/authController.js:20 | a generated code is stored as six decimal digits, the first not zero |
| Codes.CodeTextInjective | controllers/authController.js:20 | two codes have equal texts exactly when they are the same number, so a submitted text matches at most one issued code |
| Codes.SixDigitCodeIsCodeText | controllers/authController.js:20 | every six-digit text without a leading zero is the stored form of exactly the code it denotes, in [100000, 999999] |
| Codes.ParseDecimalInvertsDecimal | controllers/authController.js:20 | reading back the decimal text of a number gives the number |
| Codes.DecimalInvertsParseDecimal | controllers/authController.js:20 | the decimal text of a parsed digit string without leading zero is that string |
| UserModel.ParseGender | models/User.js:6 | a gender is accepted exactly when it is one of male, female, other |
| UserModel.GenderTextRoundTrip | models/User.js:6 | each enumeration value's text is accepted as that value |
| UserModel.NewAccount | models/User.js:4-17 | a new account carries the submitted name, email, gender and digest, is unverified with level 1 and 0 stars, has no optional profile fields, and has both code and expiry set |
| UserModel.IssueCode | controllers/authController.js:141-142 | issuing writes code and expiry together into the one slot and changes nothing else |
| UserModel.ClearCode | controllers/authController.js:121-122 | consuming empties code and expiry together and changes nothing else |
| UserModel.Sanitize | controllers/authController.js:314-325 | the returned profile copies exactly id, name, email, gender, phone, nationality, state, date of birth, level and stars from the account (the same object as at lines 184-195) and has no place for password, code, expiry or verification flag |
| UserModel.SanitizeHidesSecrets | controllers/authController.js:182-195 | the returned profile is the same for two accounts exactly when they agree outside password, verification flag, code and expiry |
| ChildModel.NewChild | models/Child.js:4-9 | a new child carries parent, name and age, the given level or 1 by default, and 0 stars and 0 high score |
| AuthController.Register | controllers/authController.js:9-79 | a known email gets 400 "User already exists" with the store unchanged; a document the schema refuses (empty name or email, gender outside the enumeration) gets 500 with the store unchanged; otherwise exactly one new account is stored, unverified, with the code and expiry now + 600000, and it stays stored when the email step fails (500); the 201 reply carries only the message and the email |
| AuthController.MarkVerified | controllers/authController.js:120-122 | after verification the account is verified, code and expiry are both gone, and profile and digest are unchanged |
| AuthController.VerifyEmailAsWritten | controllers/authController.js:109-129 | succeeds iff the account exists, is unverified, the submitted code equals the stored one (an absent code equals an empty slot) and an expiry, if any, is not before now; the reply says "Email verified" on success, and otherwise "User not found", "User already verified" or "Invalid or expired code" (an absent code against a pending one included) |
| AuthController.VerifyEmail | controllers/authController.js:109-129 | succeeds iff the account exists, is unverified, a code is submitted and equals the stored one, and now is not after the expiry (the expiry instant is accepted); on success only that account changes, it becomes verified with code and expiry cleared; every failure is 400 with the store unchanged and the source's message per case |
| AuthController.Login | controllers/authController.js:131-200 | an unknown email gets 400 "Invalid credentials"; an unverified account gets 400 and a fresh code expiring at now + 3600000, whatever the password; a token is returned iff the account is verified and the password hashes to the stored digest, and then with the sanitized profile and the store unchanged |
| AuthController.ResendVerificationCode | controllers/authController.js:202-258 | unknown: 400 "User not found"; verified: 400 "User already verified"; otherwise a fresh code expiring at now + 3600000 and 200, whether or not the email was delivered |
| AuthController.ForgotPassword | controllers/authController.js:369-419 | unknown: 404; otherwise a fresh code expiring at now + 900000 overwrites the slot of a verified or unverified account, and the reply is 200 or, on delivery failure, 500 with the code already stored |
| AuthController.ResetPassword | controllers/authController.js:421-439 | succeeds iff the account has exactly the submitted code and an expiry strictly after now (the expiry instant is refused); on success the digest becomes hash(newPassword), code and expiry are cleared, the verification flag and profile are unchanged, and no other account changes; a failure is 400 with the store unchanged |
| AuthController.ResetPasswordAsWritten | controllers/authController.js:421-439 | the body code goes into the store filter unchanged: a text code succeeds iff it equals the pending code and the expiry is strictly after now; the operator object `{"$ne": null}` succeeds iff any code is pending and unexpired; success and failure change the store exactly as ResetPassword does |
| AuthController.FindById | controllers/authController.js:311 | returns an account carrying the identifier, or none exactly when no account carries it |
| AuthController.GetUser | controllers/authController.js:305-330 | 400 "Invalid user ID" exactly for the identifiers "", "undefined" and "null"; otherwise 200 with the sanitized profile of an account with that identifier exactly when one exists, else 404 |
| ChildController.InitialLevel | controllers/authController.js:86-88 | the starting level is in {1, 2, 3}: 1 below age 3, 2 for ages 3 and 4, 3 from age 5 |
| ChildController.InitialLevelMonotone | controllers/authController.js:86-88 | the starting level never decreases with age |
| ChildController.AddChild | controllers/authController.js:81-97 | with parent, non-empty name and age present, exactly one child is stored under the new identifier with the age-tiered level, 0 stars and 0 high score, and returned with 201; a missing required field gives 500 with the store unchanged |
| ChildController.ChildrenOf | controllers/authController.js:101 | a child is selected iff its parentId is the requested one, and it is returned as stored |
| ChildController.GetChildren | controllers/authController.js:99-107 | 200 with exactly the children of the given parent |
| ChildController.UpdateChildProgress | controllers/authController.js:348-367 | an unknown id gets 404 with the store unchanged; otherwise stars and level are set, the high score is replaced iff one is supplied (0 included), and identity, parent, name, age and the other children are unchanged |
| ChildController.DeleteChild | controllers/authController.js:294-303 | an unknown id gets 404 with the store unchanged; otherwise exactly that child is removed |
| CodeLifecycle.Handle | controllers/authController.js:9-439 | with every handler as written, no account handler removes an account or touches an account other than the one the request names |
| CodeLifecycle.HandleKeepsStoreOk | models/User.js:4-14 | every account handler keeps the store invariant: accounts under their own email, required fields present, code and expiry both set or both unset, pending codes six digits, identifiers unique |
| CodeLifecycle.RunKeepsStoreOk | models/User.js:4-14 | the invariant, and with it code/expiry consistency, holds after any sequence of requests |
| CodeLifecycle.HandleKeepsVerified | controllers/authController.js:120 | no handler turns a verified account back to unverified |
| CodeLifecycle.VerifiedIsPermanent | controllers/authController.js:120 | a verified account stays verified through any sequence of requests |
| CodeLifecycle.PasswordChangesOnlyByReset | controllers/authController.js:429 | a stored digest changes only by a successful resetPassword naming that account |
| CodeLifecycle.OnlyLatestCodeIsAccepted | controllers/authController.js:116 | of the handlers as written: after a code n is issued, a code m verifies iff m = n, the account is unverified and now is not past the expiry, and resets the password iff m = n and now is strictly before the expiry |
| CodeLifecycle.ResendSupersedesRegistrationCode | controllers/authController.js:216-217 | a resent code makes the registration code fail verification unless both draws were equal |
| CodeLifecycle.RegistrationCodeVerifies | controllers/authController.js:29 | the registration code verifies iff at most 600000 ms have passed since registration |
| CodeLifecycle.CodesAreInterchangeable | controllers/authController.js:376-377 | the shared slot lets a verification code reset the password and a reset code verify the email |
| CodeLifecycle.ExpiryInstantBoundary | controllers/authController.js:424 | at the exact expiry instant verifyEmail accepts the code and resetPassword refuses it, whatever code or operator object it is given; one millisecond later verifyEmail refuses too |
| CodeLifecycle.NoReplayAfterVerify | controllers/authController.js:115 | after a successful verification, verifyEmail answers "User already verified" and resetPassword refuses every code and the operator object |
| CodeLifecycle.NoReplayAfterReset | controllers/authController.js:430-431 | after a successful reset, no code or operator object resets the password again and no submitted code verifies the email |
| CodeLifecycle.RegisteredAccountCannotLogIn | controllers/authController.js:139-175 | right after registration even the correct password is refused and the code slot is overwritten with a fresh one-hour code |
| CodeLifecycle.VerifyWithoutCodeAfterReset | controllers/authController.js:116 | as written, register, forgotPassword and resetPassword leave an unverified account that verifyEmail verifies without any code; the corrected handler refuses that request |
| CodeLifecycle.CorrectionOnlyRefusesAbsentCode | controllers/authController.js:116 | when the account's code and expiry are set together (as every handler keeps them), the corrected and as-written verifyEmail agree on every request that carries a code |
| CodeLifecycle.ResetWithoutCodeByOperator | controllers/authController.js:424 | as written, after forgotPassword for any email the operator code `{"$ne": null}` resets that account's password within the 15-minute window, while the corrected handler accepts only the mailed code |
| CodeLifecycle.ResetCorrectionOnlyRefusesOperators | controllers/authController.js:424 | on a text code the as-written and corrected resetPassword give the same store and reply |
| ChildProperties.AddChildKeepsChildrenOk | models/Child.js:4-5 | adding keeps every stored child under its identifier with a parent and a name |
| ChildProperties.UpdateChildProgressKeepsChildrenOk | models/Child.js:4-5 | updating progress keeps the child store invariant |
| ChildProperties.DeleteChildKeepsChildrenOk | models/Child.js:4-5 | deleting keeps the child store invariant |
| ChildProperties.AddedChildIsListed | controllers/authController.js:90-101 | an added child is listed under its parent with its stored record, and other parents' listings do not change |
| ChildProperties.DeletedChildIsNotListed | controllers/authController.js:296 | a deleted child is listed under no parent, and the rest of the listing is unchanged |
| ChildProperties.ListingsPartitionChildren | controllers/authController.js:101 | listings of different parents are disjoint and every child is in its parent's listing |
| ChildProperties.HighScoreSurvivesLaterUpdates | controllers/authController.js:352-353 | a supplied high score survives a later update that omits one, while stars and level follow the later update |
| ChildProperties.UpdateChildProgressIdempotent | controllers/authController.js:355-359 | repeating the same progress update changes nothing further |
| ChildProperties.DeleteUndoesAdd | controllers/authController.js:90-91 | deleting a just-added child restores the child store |

## Findings

| source | as written | input that shows it | evidently intended | confidence | as-written member | corrected member |
|---|---|---|---|---|---|---|
| controllers/authController.js:116 | the test "stored code `!==` submitted code, or expiry `<` now" rejects nothing when both the stored slot and the submitted `code` are absent (`undefined !== undefined` and `undefined < now` are both false) | register, then forgotPassword, then resetPassword with the mailed code (this empties the slot and leaves `isVerified` false), then POST /verify-email with body `{"email": ...}` and no `code` | verification needs a pending code that equals a submitted one | medium (JavaScript semantics certain; intent inferred); not executed | AuthController.VerifyEmailAsWritten, CodeLifecycle.VerifyWithoutCodeAfterReset | AuthController.VerifyEmail, CodeLifecycle.CorrectionOnlyRefusesAbsentCode |
| controllers/authController.js:424 | `req.body.code` is put into the `findOne` filter unchanged, so a JSON object is read as a query operator | POST /forgot-password for the victim's email, then POST /reset-password with `{"email": victim, "code": {"$ne": null}, "newPassword": ...}` within 15 minutes | a password reset needs the mailed code, compared as text | medium (the filter is passed through as written; that Mongoose leaves operator objects in place is its default behaviour, not checked here); not executed | AuthController.ResetPasswordAsWritten, CodeLifecycle.ResetWithoutCodeByOperator | AuthController.ResetPassword, CodeLifecycle.ResetCorrectionOnlyRefusesOperators |

The request trace (`CodeLifecycle.Handle`) runs the handlers as written:
`VerifyEmailAsWritten` and `ResetPasswordAsWritten`. So the store invariant, permanence of
verification and the password frame are proved of the program as it is. So are the
single-call lemmas about consuming a code (expiry, replay, supersession). The corrected
handlers are proved equal to the as-written ones on every request the corrections do not
refuse.

## Left out

- `updateProfile` and `updateProgress` are not modelled. Their behaviour rests on how
  Mongoose treats `undefined` values in `findByIdAndUpdate`. `updateProgress` also returns
  the raw document, or `null` with status 200.
- Email delivery is the `mailed` flag. The Brevo HTTP call, sender, subjects and HTML
  templates are external I/O.
- Login and ResendVerificationCode take `mailed` but do not depend on it, because the
  code swallows the delivery error.
- bcrypt salting and cost are left out. The hasher is a deterministic parameter, and the
  only thing used is whether a digest matches.
- Token signing, its secret and its 7-day lifetime are left out. A token is an opaque
  value that names the account identifier.
- `Math.random` is left out because it works in floating point. Its range is the
  `CodeValue` type.
- Console logging, `FRONTEND_URL` and Mongoose `timestamps` are left out.
- Request fields are typed. `verifyEmail`'s `code` and `addChild`'s fields may be absent.
  `resetPassword`'s `code` is a string or the one operator object `{"$ne": null}`.
  `updateChildProgress` takes present integers for `stars` and `currentLevel` and an
  optional `highScore`. Every other field is a present string.
- An absent password or new password is not modelled. bcrypt throws on it, giving 500
  "Server error".
- An `undefined` value in a query filter is not modelled, because its meaning is defined
  by the store. This covers `email` in every `findOne` and `code` in `resetPassword`.
- ChildController.UpdateChildProgress: an absent `stars` or `currentLevel` is not
  modelled. It goes into `$set` as `undefined`, and `findByIdAndUpdate` handles that in
  store-defined ways.
- AuthController.ResetPassword: its "succeeds iff the account has exactly the submitted
  code" holds only for a text code. An object code is a query operator; see
  `ResetPasswordAsWritten` and the Findings table. Operators other than `{"$ne": null}`
  are not modelled.
- An object-valued `email` is not modelled. It would likewise become a query operator in
  the `findOne({ email })` of register, verifyEmail, login, resendVerificationCode,
  forgotPassword and resetPassword, and match whatever account the store returns first.
- A code sent as a JSON number is not modelled. `verifyEmail` compares strictly and would
  refuse it; Mongoose would cast it to text in `resetPassword`.
- Identifiers are opaque strings in the model. The store instead refuses a value that
  is not a valid ObjectId with a cast error, which answers 500 "Server error". The model
  answers differently for each handler:
  - AuthController.GetUser: 404 where the code answers 500, for an id that is not one of
    the three guarded strings.
  - ChildController.DeleteChild: 404 where the code answers 500.
  - ChildController.UpdateChildProgress: 404 where the code answers 500.
  - ChildController.GetChildren: 200 with an empty listing where the code answers 500
    (`Child.find` casts `parentId`).
  - ChildController.AddChild: 201 with a stored child where the code answers 500 (the
    save casts `parentId`).
- Store-assigned identifiers are assumed fresh. AddChild requires a new id, and the trace
  lemmas require fresh account ids.
- ChildController.AddChild: fractional or textual ages are not modelled (age is an
  integer). For example, age 4.5 falls through both tiers to level 1.
- ChildController.AddChild: the parent account is not looked up, as in the code. The
  schema's `ref` names the User model but does not enforce that the parent exists.
- ChildController.GetChildren: the children come back as a map keyed by identifier, not
  as a list in store order.
- Store and network failures outside schema validation are not modelled. These are the
  generic 500 "Server error" branches.
- The unique-index race between two concurrent registrations is not modelled.
- Concurrent `resetPassword` calls are not modelled. The code does a lookup and then a
  save, so no single-winner property is claimed.
