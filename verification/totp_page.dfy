/** src/routes/user/totp/+page.server.js: the two-stage TOTP enrollment page.
    Stage 1 (`totpBegin`) issues a secret without storing it; stage 2
    (`totpVerify`) stores it only once a code verifies against it. Neither
    action reads the session cookie: the form's username picks the user. */
module TotpPage {
  import opened Wrappers
  import opened Db
  import opened Http

  const UsernameEmpty: string := "Username cannot be empty."
  const UserNotFound: string := "User not found."
  const SecretEmpty: string := "TOTP secret cannot be empty."
  const CodeEmpty: string := "TOTP code cannot be empty."
  const CodeInvalid: string := "TOTP code invalid."

  /** What `TOTP.generate2FASecret` returns. */
  datatype Secret = Secret(otpauthUrl: string, base32: string)

  /** Code this model does not contain: secret generation, QR rendering (`None`
      when `qrcode.toDataURL` throws, which the page rethrows), and code
      verification, all in src/lib/server/2fa.js. */
  datatype Totp = Totp(
    generate: string -> Secret,
    qrOf: string -> Option<string>,
    verify: (string, string) -> bool)

  // ---------------------------------------------------------------------------
  // load (lines 18-32)

  /** The user object the page receives, with the two fields the loader adds. */
  datatype PageUser = PageUser(user: User, is2faEnabled: bool, avatar: string)

  datatype LoadOutcome = NoData | Data(pageUser: PageUser) | LoadStoreError

  /** `isEnabled` is `DB.isTwoFactorEnabled` and `gravatar` is `Utils.gravatar`,
      neither of which is defined in the files modelled here. */
  function Load(st: Store, db: Conn, cookie: Option<string>, isEnabled: UserId -> bool,
                gravatar: string -> string): (r: LoadOutcome)
    ensures r.NoData? <==> !Truthy(cookie) || (db.Up? && Resolve(st, cookie.value).None?)
    ensures r.LoadStoreError? <==> Truthy(cookie) && db.Down?
    ensures r.Data? ==> && Truthy(cookie)
                        && Resolve(st, cookie.value) == Some(r.pageUser.user)
                        && r.pageUser.is2faEnabled == isEnabled(r.pageUser.user.id)
                        && r.pageUser.avatar == gravatar(r.pageUser.user.email)
  {
    if !Truthy(cookie) then NoData
    else match GetUserFromSession(st, db, cookie.value)
      case Thrown => LoadStoreError
      case Done(None) => NoData
      case Done(Some(user)) => Data(PageUser(user, isEnabled(user.id), gravatar(user.email)))
  }

  // ---------------------------------------------------------------------------
  // actions.totpBegin (lines 36-55)

  datatype BeginOutcome =
    | BeginFailure(status: int, message: string)  // `fail(400, { success: false, message })`
    | Stage1(secret: Secret, qr: string)          // `{ stage: 1, totp: { secret, qr } }`
    | QrError                                     // the QR renderer threw

  /** The first stage: look the user up by the submitted username and issue a
      secret for them. Nothing is written; the result type has no store. A
      store error in the lookup reads as "User not found.", since
      `getUserByUsername` answers `null` on errors. */
  function Begin(st: Store, db: Conn, username: Option<string>, totp: Totp): (r: BeginOutcome)
    ensures r == BeginFailure(400, UsernameEmpty) <==> !Truthy(username)
    ensures r == BeginFailure(400, UserNotFound) <==> Truthy(username) && GetUserByUsername(st, db, username.value).None?
    ensures r.BeginFailure? ==> r.status == 400
    ensures r.QrError? <==> && Truthy(username) && GetUserByUsername(st, db, username.value).Some?
                            && totp.qrOf(totp.generate(username.value).otpauthUrl).None?
    ensures r.Stage1? <==> && Truthy(username) && GetUserByUsername(st, db, username.value).Some?
                           && totp.qrOf(totp.generate(username.value).otpauthUrl).Some?
    ensures r.Stage1? ==> && Truthy(username)
                          && GetUserByUsername(st, db, username.value).Some?
                          && r.secret == totp.generate(username.value)
                          && totp.qrOf(r.secret.otpauthUrl) == Some(r.qr)
  {
    if !Truthy(username) then BeginFailure(400, UsernameEmpty)
    else match GetUserByUsername(st, db, username.value)
      case None => BeginFailure(400, UserNotFound)
      case Some(user) =>
        var secret := totp.generate(user.username);
        match totp.qrOf(secret.otpauthUrl)
        case None => QrError
        case Some(qr) => Stage1(secret, qr)
  }

  // ---------------------------------------------------------------------------
  // actions.totpVerify (lines 56-79)

  /** The form of the second stage. */
  datatype VerifyForm = VerifyForm(secret: Option<string>, username: Option<string>, code: Option<string>)

  datatype VerifyOutcome =
    | VerifyFailure(status: int, message: string, echo: Option<string>)  // `echo`: `stage: 1, totp: secret`
    | Stage2                                                             // `{ stage: 2, success: true }`

  /** A call of `DB.saveUserSecretInDatabase(userId, secret)`. */
  datatype SecretWrite = SecretWrite(userId: UserId, secret: string)

  datatype VerifyResult = VerifyResult(outcome: VerifyOutcome, writes: seq<SecretWrite>)

  /** The first failing check of the second stage, in source order: secret,
      username, user exists, code present, code verifies. */
  function VerifyCheck(st: Store, db: Conn, form: VerifyForm, verify: (string, string) -> bool): (m: Option<string>)
    ensures m == Some(SecretEmpty) <==> !Truthy(form.secret)
    ensures m == Some(UsernameEmpty) <==> Truthy(form.secret) && !Truthy(form.username)
    ensures m == Some(UserNotFound) <==>
              && Truthy(form.secret) && Truthy(form.username)
              && GetUserByUsername(st, db, form.username.value).None?
    ensures m == Some(CodeEmpty) <==>
              && Truthy(form.secret) && Truthy(form.username)
              && GetUserByUsername(st, db, form.username.value).Some?
              && !Truthy(form.code)
    ensures m == Some(CodeInvalid) <==>
              && Truthy(form.secret) && Truthy(form.username)
              && GetUserByUsername(st, db, form.username.value).Some?
              && Truthy(form.code) && !verify(form.secret.value, form.code.value)
    ensures m.None? <==>
              && Truthy(form.secret) && Truthy(form.username)
              && GetUserByUsername(st, db, form.username.value).Some?
              && Truthy(form.code) && verify(form.secret.value, form.code.value)
  {
    if !Truthy(form.secret) then Some(SecretEmpty)
    else if !Truthy(form.username) then Some(UsernameEmpty)
    else if GetUserByUsername(st, db, form.username.value).None? then Some(UserNotFound)
    else if !Truthy(form.code) then Some(CodeEmpty)
    else if !verify(form.secret.value, form.code.value) then Some(CodeInvalid)
    else None
  }

  /** The second stage: the submitted secret is saved, once, for the user the
      username names, and only after the code verifies against it. */
  function Verify(st: Store, db: Conn, form: VerifyForm, verify: (string, string) -> bool): (r: VerifyResult)
    ensures r.outcome.VerifyFailure? <==> r.writes == []
    ensures r.outcome.VerifyFailure? ==> && r.outcome.status == 400
                                         && Some(r.outcome.message) == VerifyCheck(st, db, form, verify)
    ensures r.outcome.VerifyFailure? && r.outcome.message != SecretEmpty ==> r.outcome.echo == form.secret
    ensures r.outcome == VerifyFailure(400, SecretEmpty, None) <==> !Truthy(form.secret)
    ensures r.outcome.Stage2? ==>
              && Truthy(form.username) && Truthy(form.secret)
              && GetUserByUsername(st, db, form.username.value).Some?
              && r.writes == [SecretWrite(GetUserByUsername(st, db, form.username.value).value.id, form.secret.value)]
              && Truthy(form.code) && verify(form.secret.value, form.code.value)
  {
    var check := VerifyCheck(st, db, form, verify);
    if check == Some(SecretEmpty) then VerifyResult(VerifyFailure(400, SecretEmpty, None), [])
    else if check.Some? then VerifyResult(VerifyFailure(400, check.value, form.secret), [])
    else
      var user := GetUserByUsername(st, db, form.username.value).value;
      VerifyResult(Stage2, [SecretWrite(user.id, form.secret.value)])
  }

  /** Enrollment round trip: a secret issued by the first stage for a user, and
      a code the verifier accepts for it, make the second stage save that
      secret for that user. */
  lemma {:induction false} EnrollmentRoundTrip(st: Store, username: string, totp: Totp, code: string)
    requires Begin(st, Up, Some(username), totp).Stage1?
    requires totp.verify(Begin(st, Up, Some(username), totp).secret.base32, code)
    requires Begin(st, Up, Some(username), totp).secret.base32 != "" && code != ""
    ensures var secret := Begin(st, Up, Some(username), totp).secret.base32;
            var r := Verify(st, Up, VerifyForm(Some(secret), Some(username), Some(code)), totp.verify);
            && r.outcome == Stage2
            && r.writes == [SecretWrite(GetUserByUsername(st, Up, username).value.id, secret)]
            && GetUserByUsername(st, Up, username).value.username == username
  {
  }
}
