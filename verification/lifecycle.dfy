/** Properties of the one-time-code lifecycle that relate several handler
    calls: the store invariant every handler keeps, the single shared code
    slot, single use of a code, the different expiry boundaries of the two
    consuming handlers, and the absent-code acceptance of `verifyEmail` as
    the code is written. */
module CodeLifecycle {
  import opened Wrappers
  import opened Codes
  import opened UserModel
  import opened Replies
  import opened AuthController

  /** One account request, with the fields its handler reads. */
  datatype Request =
    | RegisterRequest(fullName: string, email: Email, gender: string, password: string, newId: AccountId)
    | VerifyRequest(email: Email, submitted: Option<string>)
    | LoginRequest(email: Email, password: string)
    | ResendRequest(email: Email)
    | ForgotRequest(email: Email)
    | ResetRequest(email: Email, code: CodeFilter, newPassword: string)

  /** What the world supplies to one request: the clock, the code the
      generator draws, and whether the email provider accepted the message. */
  datatype Env = Env(now: int, code: CodeValue, mailed: bool)

  /** Dispatches a request to its handler as the code is written. No
      handler removes an account, and none touches an account other than
      the one the request names. */
  function Handle(accounts: Accounts, req: Request, env: Env, hash: Hasher): (r: AuthStep)
    ensures accounts.Keys <= r.accounts.Keys <= accounts.Keys + {req.email}
    ensures forall e :: e in accounts && e != req.email ==> r.accounts[e] == accounts[e]
  {
    match req
    case RegisterRequest(fullName, email, gender, password, newId) =>
      Register(accounts, fullName, email, gender, password, hash, newId, env.code, env.now, env.mailed)
    case VerifyRequest(email, submitted) =>
      VerifyEmailAsWritten(accounts, email, submitted, env.now)
    case LoginRequest(email, password) =>
      Login(accounts, email, password, hash, env.code, env.now, env.mailed)
    case ResendRequest(email) =>
      ResendVerificationCode(accounts, email, env.code, env.now, env.mailed)
    case ForgotRequest(email) =>
      ForgotPassword(accounts, email, env.code, env.now, env.mailed)
    case ResetRequest(email, code, newPassword) =>
      ResetPasswordAsWritten(accounts, email, code, newPassword, hash, env.now)
  }

  /** The store hands out identifiers no account already carries. */
  predicate FreshId(accounts: Accounts, req: Request) {
    req.RegisterRequest? ==> forall e :: e in accounts ==> accounts[e].id != req.newId
  }

  /** The store after handling `trace` in order. */
  function Run(accounts: Accounts, trace: seq<(Request, Env)>, hash: Hasher): Accounts
    decreases |trace|
  {
    if |trace| == 0 then accounts
    else Run(Handle(accounts, trace[0].0, trace[0].1, hash).accounts, trace[1..], hash)
  }

  /** Every registration in `trace` receives a fresh identifier. */
  predicate FreshIdsThroughout(accounts: Accounts, trace: seq<(Request, Env)>, hash: Hasher)
    decreases |trace|
  {
    |trace| == 0 ||
    (FreshId(accounts, trace[0].0) &&
     FreshIdsThroughout(Handle(accounts, trace[0].0, trace[0].1, hash).accounts, trace[1..], hash))
  }

  /** Every handler keeps the store invariant: accounts under their own
      email, required fields present, code and expiry set together, pending
      codes six digits, identifiers unique. */
  lemma HandleKeepsStoreOk(accounts: Accounts, req: Request, env: Env, hash: Hasher)
    requires StoreOk(accounts)
    requires FreshId(accounts, req)
    ensures StoreOk(Handle(accounts, req, env, hash).accounts)
  {
  }

  /** The store invariant holds after any sequence of requests, so code and
      expiry are never found one without the other. */
  lemma {:induction false} RunKeepsStoreOk(accounts: Accounts, trace: seq<(Request, Env)>, hash: Hasher)
    requires StoreOk(accounts)
    requires FreshIdsThroughout(accounts, trace, hash)
    ensures StoreOk(Run(accounts, trace, hash))
    ensures forall e :: e in Run(accounts, trace, hash) ==> SlotConsistent(Run(accounts, trace, hash)[e])
    decreases |trace|
  {
    if |trace| > 0 {
      HandleKeepsStoreOk(accounts, trace[0].0, trace[0].1, hash);
      RunKeepsStoreOk(Handle(accounts, trace[0].0, trace[0].1, hash).accounts, trace[1..], hash);
    }
  }

  /** No handler un-verifies an account. */
  lemma HandleKeepsVerified(accounts: Accounts, req: Request, env: Env, hash: Hasher, e: Email)
    requires e in accounts && accounts[e].isVerified
    ensures Handle(accounts, req, env, hash).accounts[e].isVerified
  {
  }

  /** Once verified, an account stays verified through any requests. */
  lemma {:induction false} VerifiedIsPermanent(accounts: Accounts, trace: seq<(Request, Env)>,
                                               hash: Hasher, e: Email)
    requires e in accounts && accounts[e].isVerified
    ensures e in Run(accounts, trace, hash) && Run(accounts, trace, hash)[e].isVerified
    decreases |trace|
  {
    if |trace| > 0 {
      HandleKeepsVerified(accounts, trace[0].0, trace[0].1, hash, e);
      VerifiedIsPermanent(Handle(accounts, trace[0].0, trace[0].1, hash).accounts, trace[1..], hash, e);
    }
  }

  /** Only a successful `resetPassword` on that very account changes a stored
      password digest. */
  lemma PasswordChangesOnlyByReset(accounts: Accounts, req: Request, env: Env, hash: Hasher, e: Email)
    requires e in accounts
    requires Handle(accounts, req, env, hash).accounts[e].password != accounts[e].password
    ensures req.ResetRequest? && req.email == e
    ensures Handle(accounts, req, env, hash).reply == Reply(200, Message(PasswordUpdated))
  {
  }

  /** Only the most recently issued code is accepted, by either consuming
      handler as written: after a code `n` is put into the slot, a code `m` verifies iff
      `m == n` (and the account is unverified and `now` is not past the
      expiry), and resets the password iff `m == n` and `now` is strictly
      before the expiry. */
  lemma OnlyLatestCodeIsAccepted(accounts: Accounts, email: Email, n: CodeValue, expires: int,
                                 m: CodeValue, now: int, newPassword: string, hash: Hasher)
    requires email in accounts
    ensures var s := accounts[email := IssueCode(accounts[email], n, expires)];
      && (VerifyEmailAsWritten(s, email, Some(CodeText(m)), now).reply.status == 200 <==>
            !accounts[email].isVerified && m == n && now <= expires)
      && (ResetPasswordAsWritten(s, email, Equals(CodeText(m)), newPassword, hash, now).reply.status == 200 <==>
            m == n && now < expires)
  {
    CodeTextInjective(m, n);
  }

  /** A resent code supersedes the one from registration: the old code no
      longer verifies unless the generator happened to draw the same number. */
  lemma ResendSupersedesRegistrationCode(accounts: Accounts, fullName: string, email: Email,
                                         gender: string, password: string, hash: Hasher,
                                         newId: AccountId, first: CodeValue, second: CodeValue,
                                         t0: int, t1: int, t2: int, mailed: bool)
    requires email !in accounts && ValidSignup(fullName, email, gender)
    requires first != second
    ensures var s1 := Register(accounts, fullName, email, gender, password, hash, newId, first, t0, mailed).accounts;
            var s2 := ResendVerificationCode(s1, email, second, t1, mailed).accounts;
            VerifyEmailAsWritten(s2, email, Some(CodeText(first)), t2).reply == Reply(400, Message(InvalidCode))
  {
    CodeTextInjective(first, second);
  }

  /** A registration code verifies up to and including its expiry instant,
      ten minutes after registration. */
  lemma RegistrationCodeVerifies(accounts: Accounts, fullName: string, email: Email,
                                 gender: string, password: string, hash: Hasher,
                                 newId: AccountId, code: CodeValue, t0: int, t1: int, mailed: bool)
    requires email !in accounts && ValidSignup(fullName, email, gender)
    ensures var s := Register(accounts, fullName, email, gender, password, hash, newId, code, t0, mailed).accounts;
            VerifyEmailAsWritten(s, email, Some(CodeText(code)), t1).reply.status == 200 <==> t1 <= t0 + 600000
  {
  }

  /** The slot is shared: the code mailed for verification also resets the
      password (within its window), and a reset code also verifies the
      email of an unverified account. */
  lemma CodesAreInterchangeable(accounts: Accounts, email: Email, code: CodeValue, t0: int,
                                t1: int, newPassword: string, hash: Hasher, mailed: bool)
    requires email in accounts && !accounts[email].isVerified
    requires t0 <= t1 < t0 + 900000
    ensures var s := ResendVerificationCode(accounts, email, code, t0, mailed).accounts;
            ResetPasswordAsWritten(s, email, Equals(CodeText(code)), newPassword, hash, t1).reply.status == 200
    ensures var s := ForgotPassword(accounts, email, code, t0, mailed).accounts;
            VerifyEmailAsWritten(s, email, Some(CodeText(code)), t1).reply.status == 200
  {
  }

  /** At the exact expiry instant `verifyEmail` still accepts the code and
      `resetPassword` already refuses it, whatever code or operator object it
      is given. */
  lemma ExpiryInstantBoundary(accounts: Accounts, email: Email, code: string, filter: CodeFilter,
                              newPassword: string, hash: Hasher)
    requires email in accounts && !accounts[email].isVerified
    requires accounts[email].verificationCode == Some(code)
    requires accounts[email].verificationCodeExpires.Some?
    ensures var t := accounts[email].verificationCodeExpires.value;
      && VerifyEmailAsWritten(accounts, email, Some(code), t).reply.status == 200
      && ResetPasswordAsWritten(accounts, email, filter, newPassword, hash, t).reply ==
           Reply(400, Message(InvalidCode))
      && VerifyEmailAsWritten(accounts, email, Some(code), t + 1).reply == Reply(400, Message(InvalidCode))
  {
  }

  /** A code is single use: after a successful verification no code at all
      is accepted by either consuming handler until a new one is issued, not
      even the operator object. */
  lemma NoReplayAfterVerify(accounts: Accounts, email: Email, code: Option<string>, now: int,
                            later: int, again: Option<string>, other: CodeFilter,
                            newPassword: string, hash: Hasher)
    requires VerifyEmailAsWritten(accounts, email, code, now).reply.status == 200
    ensures var s := VerifyEmailAsWritten(accounts, email, code, now).accounts;
      && VerifyEmailAsWritten(s, email, again, later).reply == Reply(400, Message(AlreadyVerified))
      && ResetPasswordAsWritten(s, email, other, newPassword, hash, later).reply ==
           Reply(400, Message(InvalidCode))
  {
  }

  /** The same after a successful password reset: nothing resets again, not
      even the operator object, and no submitted code verifies (a request
      without a code is the `verifyEmail` finding below). */
  lemma NoReplayAfterReset(accounts: Accounts, email: Email, code: CodeFilter, newPassword: string,
                           hash: Hasher, now: int, later: int, again: CodeFilter, text: string,
                           pw2: string)
    requires ResetPasswordAsWritten(accounts, email, code, newPassword, hash, now).reply.status == 200
    ensures var s := ResetPasswordAsWritten(accounts, email, code, newPassword, hash, now).accounts;
      && ResetPasswordAsWritten(s, email, again, pw2, hash, later).reply == Reply(400, Message(InvalidCode))
      && VerifyEmailAsWritten(s, email, Some(text), later).reply.status == 400
  {
  }

  /** A correct password does not let an unverified account in, even right
      after registration; it only re-issues a code. */
  lemma RegisteredAccountCannotLogIn(accounts: Accounts, fullName: string, email: Email,
                                     gender: string, password: string, hash: Hasher,
                                     newId: AccountId, code: CodeValue, reissued: CodeValue,
                                     t0: int, t1: int, mailed: bool)
    requires email !in accounts && ValidSignup(fullName, email, gender)
    ensures var s := Register(accounts, fullName, email, gender, password, hash, newId, code, t0, mailed).accounts;
            var r := Login(s, email, password, hash, reissued, t1, mailed);
            && r.reply == Reply(400, Message(NotVerified))
            && r.accounts[email].verificationCode == Some(CodeText(reissued))
            && r.accounts[email].verificationCodeExpires == Some(t1 + 3600000)
  {
  }

  /** As written, `verifyEmail` accepts a request without a code for an
      unverified account whose slot is empty. Such an account is reachable:
      register, ask for a password reset, and reset the password (which
      empties the slot and leaves the account unverified). The corrected
      handler refuses that request. */
  lemma VerifyWithoutCodeAfterReset(accounts: Accounts, fullName: string, email: Email,
                                    gender: string, password: string, hash: Hasher,
                                    newId: AccountId, c1: CodeValue, c2: CodeValue,
                                    t0: int, t1: int, t2: int, t3: int, newPassword: string)
    requires email !in accounts && ValidSignup(fullName, email, gender)
    requires t2 < t1 + 900000
    ensures var s1 := Register(accounts, fullName, email, gender, password, hash, newId, c1, t0, true).accounts;
            var s2 := ForgotPassword(s1, email, c2, t1, true).accounts;
            var s3 := ResetPasswordAsWritten(s2, email, Equals(CodeText(c2)), newPassword, hash, t2);
            && s3.reply.status == 200
            && !s3.accounts[email].isVerified
            && VerifyEmailAsWritten(s3.accounts, email, None, t3).reply.status == 200
            && VerifyEmailAsWritten(s3.accounts, email, None, t3).accounts[email].isVerified
            && VerifyEmail(s3.accounts, email, None, t3).reply == Reply(400, Message(InvalidCode))
  {
  }

  /** The correction changes nothing else: when the named account's code and
      expiry are set together, as every handler keeps them, the two versions
      agree on every request that carries a code. */
  lemma CorrectionOnlyRefusesAbsentCode(accounts: Accounts, email: Email, code: string, now: int)
    requires email in accounts ==> SlotConsistent(accounts[email])
    ensures VerifyEmailAsWritten(accounts, email, Some(code), now) ==
            VerifyEmail(accounts, email, Some(code), now)
  {
  }

  /** As written, `resetPassword` given the body code `{"$ne": null}` resets
      the password of any account holding a pending, unexpired code, without
      knowing that code; `forgotPassword` puts one there for any email. The
      corrected handler, which takes the code as text, accepts only the code
      that was mailed. */
  lemma ResetWithoutCodeByOperator(accounts: Accounts, email: Email, n: CodeValue, t0: int,
                                   t1: int, newPassword: string, hash: Hasher, mailed: bool,
                                   guess: string)
    requires email in accounts
    requires t0 <= t1 < t0 + 900000
    ensures var s := ForgotPassword(accounts, email, n, t0, mailed).accounts;
      && ResetPasswordAsWritten(s, email, NotNull, newPassword, hash, t1).reply.status == 200
      && ResetPasswordAsWritten(s, email, NotNull, newPassword, hash, t1).accounts[email].password
           == hash(newPassword)
      && (ResetPassword(s, email, guess, newPassword, hash, t1).reply.status == 200 <==>
            guess == CodeText(n))
  {
  }

  /** The correction changes nothing else: on a text code the two versions
      of `resetPassword` agree. */
  lemma ResetCorrectionOnlyRefusesOperators(accounts: Accounts, email: Email, code: string,
                                            newPassword: string, hash: Hasher, now: int)
    ensures ResetPasswordAsWritten(accounts, email, Equals(code), newPassword, hash, now) ==
            ResetPassword(accounts, email, code, newPassword, hash, now)
  {
  }
}
