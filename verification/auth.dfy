/** The parent-account handlers of the auth controller, each a pure
    transition from (store, now, request, collaborator outcomes) to
    (store', reply). The generated code, the current time in milliseconds,
    the hasher and the email delivery outcome are parameters. */
module AuthController {
  import opened Wrappers
  import opened Codes
  import opened UserModel
  import opened Replies

  /** Validity windows, in milliseconds. */
  const RegisterWindow := 10 * 60 * 1000
  const LoginWindow := 3600000
  const ResendWindow := 3600000
  const ResetWindow := 15 * 60 * 1000

  datatype AuthStep = AuthStep(accounts: Accounts, reply: Reply)

  /** `after` differs from `before` at most in the account stored under `email`. */
  predicate OnlyTouches(before: Accounts, after: Accounts, email: Email) {
    && after.Keys == before.Keys
    && forall e :: e in before && e != email ==> after[e] == before[e]
  }

  /** What the schema accepts on save: required text present and the gender
      one of the enumeration. */
  predicate ValidSignup(fullName: string, email: Email, gender: string) {
    fullName != "" && email != "" && ParseGender(gender).Some?
  }

  /** `register`: refuses a known email; otherwise saves an unverified account
      with a 10-minute code, and only then tries to mail the code, so a
      delivery failure answers 500 with the account already stored. */
  function Register(accounts: Accounts, fullName: string, email: Email, gender: string,
                    password: string, hash: Hasher, newId: AccountId,
                    code: CodeValue, now: int, mailed: bool): (r: AuthStep)
    ensures email in accounts ==>
      r.accounts == accounts && r.reply == Reply(400, Message(UserExists))
    ensures email !in accounts && !ValidSignup(fullName, email, gender) ==>
      r.accounts == accounts && r.reply == Reply(500, Message(ServerError))
    ensures email !in accounts && ValidSignup(fullName, email, gender) ==>
      && r.accounts.Keys == accounts.Keys + {email}
      && (forall e :: e in accounts ==> r.accounts[e] == accounts[e])
      && var a := r.accounts[email];
      && a.id == newId && a.email == email && a.fullName == fullName
      && Some(a.gender) == ParseGender(gender)
      && a.password == hash(password)
      && !a.isVerified && a.currentLevel == 1 && a.stars == 0
      && a.phone.None? && a.nationality.None? && a.state.None? && a.dateOfBirth.None?
      && a.verificationCode == Some(CodeText(code))
      && a.verificationCodeExpires == Some(now + 600000)
    ensures email !in accounts && ValidSignup(fullName, email, gender) ==>
      r.reply == (if mailed then Reply(201, Registered(Registration, email))
                  else Reply(500, Message(RegisterMailFailed)))
  {
    if email in accounts then
      AuthStep(accounts, Reply(400, Message(UserExists)))
    else
      var gen := ParseGender(gender);
      if fullName == "" || email == "" || gen.None? then
        AuthStep(accounts, Reply(500, Message(ServerError)))
      else
        var saved := accounts[email := NewAccount(newId, fullName, email, gen.value,
                                                  hash(password), code, now + RegisterWindow)];
        if mailed then AuthStep(saved, Reply(201, Registered(Registration, email)))
        else AuthStep(saved, Reply(500, Message(RegisterMailFailed)))
  }

  /** The account after a successful verification. */
  function MarkVerified(a: Account): (r: Account)
    ensures r.isVerified && r.verificationCode.None? && r.verificationCodeExpires.None?
    ensures SameProfile(a, r) && r.password == a.password
  {
    ClearCode(a).(isVerified := true)
  }

  /** The rejection test of `verifyEmail` exactly as the code writes it:
      `code !== stored || expires < now`. An absent field is `undefined`:
      `undefined !== undefined` is false and `undefined < now` is false. */
  predicate RejectsAsWritten(a: Account, code: Option<string>, now: int) {
    code != a.verificationCode
    || (a.verificationCodeExpires.Some? && a.verificationCodeExpires.value < now)
  }

  /** `verifyEmail` as the code is written: it also accepts a request with no
      code when the account's slot is empty. */
  function VerifyEmailAsWritten(accounts: Accounts, email: Email, code: Option<string>,
                                now: int): (r: AuthStep)
    ensures r.reply.status == 200 <==>
      && email in accounts && !accounts[email].isVerified
      && code == accounts[email].verificationCode
      && (accounts[email].verificationCodeExpires.Some? ==>
            now <= accounts[email].verificationCodeExpires.value)
    ensures r.reply.status == 200 ==>
      && r.reply.body == Message(Verified)
      && OnlyTouches(accounts, r.accounts, email) && r.accounts[email] == MarkVerified(accounts[email])
    ensures r.reply.status != 200 ==> r.accounts == accounts && r.reply.status == 400
    ensures email !in accounts ==> r.reply.body == Message(UserNotFound)
    ensures email in accounts && accounts[email].isVerified ==>
      r.reply.body == Message(AlreadyVerified)
    ensures email in accounts && !accounts[email].isVerified && r.reply.status != 200 ==>
      r.reply.body == Message(InvalidCode)
  {
    if email !in accounts then AuthStep(accounts, Reply(400, Message(UserNotFound)))
    else
      var a := accounts[email];
      if a.isVerified then AuthStep(accounts, Reply(400, Message(AlreadyVerified)))
      else if RejectsAsWritten(a, code, now) then AuthStep(accounts, Reply(400, Message(InvalidCode)))
      else AuthStep(accounts[email := MarkVerified(a)], Reply(200, Message(Verified)))
  }

  /** The evidently intended rejection test: no pending code, a different
      code, or an expiry already passed. The expiry instant itself is still
      accepted (`<`, not `<=`). */
  predicate RejectsCode(a: Account, code: Option<string>, now: int) {
    || code.None?
    || a.verificationCode.None?
    || code != a.verificationCode
    || a.verificationCodeExpires.None?
    || a.verificationCodeExpires.value < now
  }

  /** `verifyEmail`: consumes the pending code of an unverified account. */
  function VerifyEmail(accounts: Accounts, email: Email, code: Option<string>,
                       now: int): (r: AuthStep)
    ensures r.reply.status == 200 <==>
      && email in accounts && !accounts[email].isVerified
      && code.Some? && accounts[email].verificationCode == code
      && accounts[email].verificationCodeExpires.Some?
      && now <= accounts[email].verificationCodeExpires.value
    ensures r.reply.status == 200 ==>
      && r.reply.body == Message(Verified)
      && OnlyTouches(accounts, r.accounts, email)
      && r.accounts[email].isVerified
      && r.accounts[email].verificationCode.None?
      && r.accounts[email].verificationCodeExpires.None?
      && SameProfile(accounts[email], r.accounts[email])
      && r.accounts[email].password == accounts[email].password
    ensures r.reply.status != 200 ==> r.accounts == accounts && r.reply.status == 400
    ensures email !in accounts ==> r.reply.body == Message(UserNotFound)
    ensures email in accounts && accounts[email].isVerified ==>
      r.reply.body == Message(AlreadyVerified)
    ensures email in accounts && !accounts[email].isVerified && r.reply.status != 200 ==>
      r.reply.body == Message(InvalidCode)
  {
    if email !in accounts then AuthStep(accounts, Reply(400, Message(UserNotFound)))
    else
      var a := accounts[email];
      if a.isVerified then AuthStep(accounts, Reply(400, Message(AlreadyVerified)))
      else if RejectsCode(a, code, now) then AuthStep(accounts, Reply(400, Message(InvalidCode)))
      else AuthStep(accounts[email := MarkVerified(a)], Reply(200, Message(Verified)))
  }

  /** `login`: an unverified account gets a fresh one-hour code and a refusal
      before the password is looked at (a delivery failure is swallowed, so
      `mailed` does not matter); a verified account gets a token and its
      sanitized profile exactly when the password hashes to the digest. */
  function Login(accounts: Accounts, email: Email, password: string, hash: Hasher,
                 code: CodeValue, now: int, mailed: bool): (r: AuthStep)
    ensures email !in accounts ==>
      r.accounts == accounts && r.reply == Reply(400, Message(InvalidCredentials))
    ensures email in accounts && !accounts[email].isVerified ==>
      && r.reply == Reply(400, Message(NotVerified))
      && OnlyTouches(accounts, r.accounts, email)
      && r.accounts[email] == IssueCode(accounts[email], code, now + 3600000)
    ensures email in accounts && accounts[email].isVerified ==> r.accounts == accounts
    ensures r.reply.body.Session? <==>
      email in accounts && accounts[email].isVerified && hash(password) == accounts[email].password
    ensures r.reply.body.Session? ==>
      r.reply == Reply(200, Session(Token(accounts[email].id), Sanitize(accounts[email])))
    ensures email in accounts && accounts[email].isVerified
            && hash(password) != accounts[email].password ==>
      r.reply == Reply(400, Message(InvalidCredentials))
  {
    if email !in accounts then AuthStep(accounts, Reply(400, Message(InvalidCredentials)))
    else
      var a := accounts[email];
      if !a.isVerified then
        AuthStep(accounts[email := IssueCode(a, code, now + LoginWindow)],
                 Reply(400, Message(NotVerified)))
      else if hash(password) != a.password then
        AuthStep(accounts, Reply(400, Message(InvalidCredentials)))
      else
        AuthStep(accounts, Reply(200, Session(Token(a.id), Sanitize(a))))
  }

  /** `resendVerificationCode`: a fresh one-hour code for an unverified
      account; a delivery failure is swallowed, so `mailed` does not matter. */
  function ResendVerificationCode(accounts: Accounts, email: Email, code: CodeValue,
                                  now: int, mailed: bool): (r: AuthStep)
    ensures email !in accounts ==>
      r.accounts == accounts && r.reply == Reply(400, Message(UserNotFound))
    ensures email in accounts && accounts[email].isVerified ==>
      r.accounts == accounts && r.reply == Reply(400, Message(AlreadyVerified))
    ensures email in accounts && !accounts[email].isVerified ==>
      && r.reply == Reply(200, Message(CodeResent))
      && OnlyTouches(accounts, r.accounts, email)
      && r.accounts[email] == IssueCode(accounts[email], code, now + 3600000)
  {
    if email !in accounts then AuthStep(accounts, Reply(400, Message(UserNotFound)))
    else
      var a := accounts[email];
      if a.isVerified then AuthStep(accounts, Reply(400, Message(AlreadyVerified)))
      else AuthStep(accounts[email := IssueCode(a, code, now + ResendWindow)],
                    Reply(200, Message(CodeResent)))
  }

  /** `forgotPassword`: a fresh 15-minute code into the same slot, verified or
      not; the code is saved before delivery is tried, so a delivery failure
      answers 500 with the new code already stored. */
  function ForgotPassword(accounts: Accounts, email: Email, code: CodeValue,
                          now: int, mailed: bool): (r: AuthStep)
    ensures email !in accounts ==>
      r.accounts == accounts && r.reply == Reply(404, Message(UserNotFound))
    ensures email in accounts ==>
      && OnlyTouches(accounts, r.accounts, email)
      && r.accounts[email] == IssueCode(accounts[email], code, now + 900000)
      && r.reply == (if mailed then Reply(200, Message(ResetSent))
                     else Reply(500, Message(ResetMailFailed)))
  {
    if email !in accounts then AuthStep(accounts, Reply(404, Message(UserNotFound)))
    else
      var saved := accounts[email := IssueCode(accounts[email], code, now + ResetWindow)];
      if mailed then AuthStep(saved, Reply(200, Message(ResetSent)))
      else AuthStep(saved, Reply(500, Message(ResetMailFailed)))
  }

  /** The store query of `resetPassword`: this email, this code, and an
      expiry strictly after now (`$gt`). */
  predicate MatchesResetQuery(a: Account, code: string, now: int) {
    match (a.verificationCode, a.verificationCodeExpires)
    case (Some(c), Some(t)) => c == code && t > now
    case _ => false
  }

  /** `resetPassword`: replaces the digest and empties the slot when the query
      matches; the verification flag is left as it was. */
  function ResetPassword(accounts: Accounts, email: Email, code: string,
                         newPassword: string, hash: Hasher, now: int): (r: AuthStep)
    ensures r.reply.status == 200 <==>
      && email in accounts
      && accounts[email].verificationCode == Some(code)
      && accounts[email].verificationCodeExpires.Some?
      && accounts[email].verificationCodeExpires.value > now
    ensures r.reply.status == 200 ==>
      && r.reply.body == Message(PasswordUpdated)
      && OnlyTouches(accounts, r.accounts, email)
      && r.accounts[email].password == hash(newPassword)
      && r.accounts[email].verificationCode.None?
      && r.accounts[email].verificationCodeExpires.None?
      && r.accounts[email].isVerified == accounts[email].isVerified
      && SameProfile(accounts[email], r.accounts[email])
    ensures r.reply.status != 200 ==>
      r.accounts == accounts && r.reply == Reply(400, Message(InvalidCode))
  {
    if email !in accounts || !MatchesResetQuery(accounts[email], code, now) then
      AuthStep(accounts, Reply(400, Message(InvalidCode)))
    else
      var a := accounts[email];
      AuthStep(accounts[email := ClearCode(a).(password := hash(newPassword))],
               Reply(200, Message(PasswordUpdated)))
  }

  /** The `code` body field as the store filter reads it. A JSON string is
      compared for equality. A JSON object is read as a query operator; of
      those only `{"$ne": null}` is modelled, which matches any pending code. */
  datatype CodeFilter = Equals(text: string) | NotNull

  predicate FilterMatches(stored: Option<string>, code: CodeFilter) {
    match code
    case Equals(t) => stored == Some(t)
    case NotNull => stored.Some?
  }

  /** `resetPassword` as the code is written: the body's `code` goes into
      the `findOne` filter unchanged, so an operator object matches any
      pending, unexpired code without knowing it. */
  function ResetPasswordAsWritten(accounts: Accounts, email: Email, code: CodeFilter,
                                  newPassword: string, hash: Hasher, now: int): (r: AuthStep)
    ensures r.reply.status == 200 <==>
      && email in accounts
      && FilterMatches(accounts[email].verificationCode, code)
      && accounts[email].verificationCodeExpires.Some?
      && accounts[email].verificationCodeExpires.value > now
    ensures r.reply.status == 200 ==>
      && r.reply.body == Message(PasswordUpdated)
      && OnlyTouches(accounts, r.accounts, email)
      && r.accounts[email].password == hash(newPassword)
      && r.accounts[email].verificationCode.None?
      && r.accounts[email].verificationCodeExpires.None?
      && r.accounts[email].isVerified == accounts[email].isVerified
      && SameProfile(accounts[email], r.accounts[email])
    ensures r.reply.status != 200 ==>
      r.accounts == accounts && r.reply == Reply(400, Message(InvalidCode))
  {
    if email !in accounts then AuthStep(accounts, Reply(400, Message(InvalidCode)))
    else
      var a := accounts[email];
      var matched := match code
        case Equals(t) => MatchesResetQuery(a, t, now)
        case NotNull => a.verificationCode.Some? && a.verificationCodeExpires.Some?
                        && a.verificationCodeExpires.value > now;
      if !matched then AuthStep(accounts, Reply(400, Message(InvalidCode)))
      else AuthStep(accounts[email := ClearCode(a).(password := hash(newPassword))],
                    Reply(200, Message(PasswordUpdated)))
  }

  /** The identifiers `getUser` refuses before asking the store: an empty
      route parameter, or the text a client sends for a missing value. */
  predicate IsMissingId(id: AccountId) {
    id == "" || id == "undefined" || id == "null"
  }

  /** `findById` over the email-keyed store. */
  method FindById(accounts: Accounts, id: AccountId) returns (found: Option<Email>)
    ensures found.Some? ==> found.value in accounts && accounts[found.value].id == id
    ensures found.None? ==> forall e :: e in accounts ==> accounts[e].id != id
  {
    var pending := accounts.Keys;
    while pending != {}
      invariant pending <= accounts.Keys
      invariant forall e :: e in accounts && e !in pending ==> accounts[e].id != id
      decreases pending
    {
      var e :| e in pending;
      if accounts[e].id == id {
        return Some(e);
      }
      pending := pending - {e};
    }
    return None;
  }

  /** `getUser`: 400 for a missing identifier, 404 for an unknown one,
      otherwise the sanitized profile of the account with that identifier. */
  method GetUser(accounts: Accounts, id: AccountId) returns (reply: Reply)
    ensures reply.status == 400 <==> IsMissingId(id)
    ensures reply.status == 400 ==> reply.body == Message(InvalidUserId)
    ensures !IsMissingId(id) ==>
      (reply.status == 200 <==> exists e :: e in accounts && accounts[e].id == id)
    ensures reply.status == 200 ==>
      exists e :: e in accounts && accounts[e].id == id && reply.body == UserRecord(Sanitize(accounts[e]))
    ensures reply.status != 200 && reply.status != 400 ==>
      reply == Reply(404, Message(UserNotFound))
  {
    if IsMissingId(id) {
      return Reply(400, Message(InvalidUserId));
    }
    var found := FindById(accounts, id);
    if found.None? {
      return Reply(404, Message(UserNotFound));
    }
    return Reply(200, UserRecord(Sanitize(accounts[found.value])));
  }
}
