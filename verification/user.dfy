/** The parent account record (the `User` schema): its fields, required
    fields, gender enumeration, defaults, the shared one-time-code slot, and
    the sanitized profile that handlers return in its place. */
module UserModel {
  import opened Wrappers
  import opened Codes

  type Email = string
  type AccountId = string

  /** A password digest. A bcrypt digest is never empty, so the required
      `password` field is always present. */
  type Digest = s: string | |s| > 0 witness "$"

  /** The one-way password hasher (bcrypt with its salt and cost in the
      backend), taken as a parameter: a login "matches" exactly when the
      hash of the submitted password equals the stored digest. */
  type Hasher = string -> Digest

  /** The schema's gender enumeration. */
  datatype Gender = Male | Female | Other

  /** The enumeration check a save performs on the submitted gender text. */
  function ParseGender(s: string): (g: Option<Gender>)
    ensures g.Some? <==> s in {"male", "female", "other"}
  {
    if s == "male" then Some(Male)
    else if s == "female" then Some(Female)
    else if s == "other" then Some(Other)
    else None
  }

  function GenderText(g: Gender): string {
    match g
    case Male => "male"
    case Female => "female"
    case Other => "other"
  }

  lemma GenderTextRoundTrip(g: Gender)
    ensures ParseGender(GenderText(g)) == Some(g)
  {
  }

  /** A stored account. The code slot is two independent optional fields,
      as in the schema; that they are set and cleared together is an
      invariant the handlers keep (see `SlotConsistent`). Times are
      milliseconds since the epoch. */
  datatype Account = Account(
    id: AccountId,
    fullName: string,
    email: Email,
    gender: Gender,
    phone: Option<string>,
    nationality: Option<string>,
    state: Option<string>,
    dateOfBirth: Option<int>,
    password: Digest,
    isVerified: bool,
    verificationCode: Option<string>,
    verificationCodeExpires: Option<int>,
    currentLevel: int,
    stars: int)

  /** The account store, keyed by its unique email. */
  type Accounts = map<Email, Account>

  /** A freshly constructed account: the submitted fields, the schema's
      defaults for everything else, and a pending code. */
  function NewAccount(id: AccountId, fullName: string, email: Email, gender: Gender,
                      password: Digest, code: CodeValue, expires: int): (a: Account)
    ensures a.id == id && a.fullName == fullName && a.email == email && a.gender == gender
    ensures a.password == password
    ensures !a.isVerified && a.currentLevel == 1 && a.stars == 0
    ensures a.phone.None? && a.nationality.None? && a.state.None? && a.dateOfBirth.None?
    ensures a.verificationCode == Some(CodeText(code)) && a.verificationCodeExpires == Some(expires)
  {
    Account(id, fullName, email, gender, None, None, None, None, password,
            false, Some(CodeText(code)), Some(expires), 1, 0)
  }

  /** Code and expiry are both set or both unset. */
  predicate SlotConsistent(a: Account) {
    a.verificationCode.Some? <==> a.verificationCodeExpires.Some?
  }

  /** `a` and `b` agree on every field outside the password digest, the
      verification flag and the code slot. */
  predicate SameProfile(a: Account, b: Account) {
    && a.id == b.id && a.fullName == b.fullName && a.email == b.email
    && a.gender == b.gender && a.phone == b.phone && a.nationality == b.nationality
    && a.state == b.state && a.dateOfBirth == b.dateOfBirth
    && a.currentLevel == b.currentLevel && a.stars == b.stars
  }

  /** Puts a fresh code into the shared slot, overwriting whatever was there. */
  function IssueCode(a: Account, code: CodeValue, expires: int): (r: Account)
    ensures r.verificationCode == Some(CodeText(code))
    ensures r.verificationCodeExpires == Some(expires)
    ensures SlotConsistent(r)
    ensures SameProfile(a, r) && r.password == a.password && r.isVerified == a.isVerified
  {
    a.(verificationCode := Some(CodeText(code)), verificationCodeExpires := Some(expires))
  }

  /** Empties the shared slot. */
  function ClearCode(a: Account): (r: Account)
    ensures r.verificationCode.None? && r.verificationCodeExpires.None?
    ensures SlotConsistent(r)
    ensures SameProfile(a, r) && r.password == a.password && r.isVerified == a.isVerified
  {
    a.(verificationCode := None, verificationCodeExpires := None)
  }

  /** What every stored account satisfies: the required text fields are
      non-empty (Mongoose's `required` refuses an empty string), the code
      slot is consistent, and a pending code is a six-digit code text. */
  predicate AccountOk(a: Account) {
    && a.fullName != ""
    && a.email != ""
    && SlotConsistent(a)
    && (a.verificationCode.Some? ==> SixDigitCode(a.verificationCode.value))
  }

  /** Store invariant: each account sits under its own email, is well formed,
      and no two accounts share an identifier. */
  predicate StoreOk(accounts: Accounts) {
    && (forall e :: e in accounts ==> accounts[e].email == e && AccountOk(accounts[e]))
    && (forall e1, e2 :: e1 in accounts && e2 in accounts && e1 != e2 ==>
          accounts[e1].id != accounts[e2].id)
  }

  /** The account representation handlers return: no password digest, no
      code, no expiry, no verification flag. */
  datatype Profile = Profile(
    id: AccountId,
    fullName: string,
    email: Email,
    gender: Gender,
    phone: Option<string>,
    nationality: Option<string>,
    state: Option<string>,
    dateOfBirth: Option<int>,
    currentLevel: int,
    stars: int)

  function Sanitize(a: Account): (p: Profile)
    ensures p.id == a.id && p.email == a.email && p.fullName == a.fullName
    ensures p.gender == a.gender && p.phone == a.phone && p.nationality == a.nationality
    ensures p.state == a.state && p.dateOfBirth == a.dateOfBirth
    ensures p.currentLevel == a.currentLevel && p.stars == a.stars
  {
    Profile(a.id, a.fullName, a.email, a.gender, a.phone, a.nationality, a.state,
            a.dateOfBirth, a.currentLevel, a.stars)
  }

  /** The profile reveals nothing about the secrets: two accounts that agree
      outside password, verification flag and code slot have the same
      profile, and accounts with the same profile agree on those fields. */
  lemma SanitizeHidesSecrets(a: Account, b: Account)
    ensures Sanitize(a) == Sanitize(b) <==> SameProfile(a, b)
  {
  }
}
