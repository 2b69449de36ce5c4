/** src/routes/auth/login/+page.server.js: the login page's `load` and its
    form action (reCAPTCHA, then credentials, then second factor, then session
    and cookie). */
module LoginPage {
  import opened Wrappers
  import Hex
  import opened Db
  import opened Http

  const RecaptchaFailed: string := "reCAPTCHA verification failed"
  const InvalidLogin: string := "Invalid username or password."
  const CodeRequired: string := "2FA code required."
  const SecretMissing: string := "2FA secret not found, contact support."
  const InvalidCode: string := "Invalid 2FA code."

  /** 30 days, in seconds. */
  const SessionMaxAge: int := 60 * 60 * 24 * 30

  // ---------------------------------------------------------------------------
  // load (lines 17-28)

  datatype LoadOutcome =
    | NotLoggedIn                                // `return null`
    | Redirect(status: int, location: string)    // `throw redirect(…)`
    | LoadStoreError                             // getUserFromSession rethrew

  /** A visitor whose cookie names a live session is sent to the home page. */
  function Load(st: Store, db: Conn, cookie: Option<string>): (r: LoadOutcome)
    ensures r.Redirect? ==> r == Redirect(302, "/")
    ensures r.Redirect? <==> Truthy(cookie) && db.Up? && Resolve(st, cookie.value).Some?
    ensures r.NotLoggedIn? <==> !Truthy(cookie) || (db.Up? && Resolve(st, cookie.value).None?)
    ensures r.LoadStoreError? <==> Truthy(cookie) && db.Down?
  {
    if !Truthy(cookie) then NotLoggedIn
    else match GetUserFromSession(st, db, cookie.value)
      case Thrown => LoadStoreError
      case Done(None) => NotLoggedIn
      case Done(Some(_)) => Redirect(302, "/")
  }

  // ---------------------------------------------------------------------------
  // actions.default (lines 37-100)

  /** The submitted form fields; `None` is a field `formData.get` returns `null` for. */
  datatype Form = Form(username: Option<string>, password: Option<string>, code: Option<string>)

  /** What the handler learns from code this model does not contain:
      `DB.isTwoFactorEnabled`, `DB.getUserSecretFromDatabase` (neither is defined
      in src/lib/server/db.js) and `TOTP.verify2FAToken`. */
  datatype SecondFactor = SecondFactor(
    isEnabled: UserId -> bool,
    secretOf: UserId -> Option<string>,
    verify: (string, string) -> bool)

  datatype Outcome =
    | Failure(status: int, message: string)  // `return fail(status, { success: false, message })`
    | Success                                // `json({ success: true, message: "Login successful." })`
    | ServerError                            // a store error rethrown by db.js

  datatype Result = Result(outcome: Outcome, store: Store, cookies: seq<CookieEffect>)

  /** Lines 81-89: the message of the first failing second-factor check, or
      `None` when the user may proceed. The checks run in a fixed order: code
      present, secret present, code verifies. */
  function SecondFactorCheck(user: User, code: Option<string>, tf: SecondFactor): (m: Option<string>)
    ensures !tf.isEnabled(user.id) ==> m.None?
    ensures m == Some(CodeRequired) <==> tf.isEnabled(user.id) && !Truthy(code)
    ensures m == Some(SecretMissing) <==> tf.isEnabled(user.id) && Truthy(code) && !Truthy(tf.secretOf(user.id))
    ensures m == Some(InvalidCode) <==> && tf.isEnabled(user.id) && Truthy(code) && Truthy(tf.secretOf(user.id))
                                        && !tf.verify(tf.secretOf(user.id).value, code.value)
    ensures m.None? <==> !tf.isEnabled(user.id)
                         || (Truthy(code) && Truthy(tf.secretOf(user.id)) && tf.verify(tf.secretOf(user.id).value, code.value))
  {
    if !tf.isEnabled(user.id) then None
    else
      var secret := tf.secretOf(user.id);
      if !Truthy(code) then Some(CodeRequired)
      else if !Truthy(secret) then Some(SecretMissing)
      else if !tf.verify(secret.value, code.value) then Some(InvalidCode)
      else None
  }

  /** The session cookie of line 94; `secure` only behind an HTTPS proxy. */
  function SessionCookie(sessionId: SessionId, forwardedProto: Option<string>): (c: CookieEffect)
    ensures c.SetCookie? && c.name == SessionCookieName && c.value == sessionId
    ensures c.options.path == "/" && c.options.httpOnly == Some(true) && c.options.sameSite == Some("strict")
    ensures c.options.maxAge == Some(2592000)
    ensures c.options.secure == Some(true) <==> forwardedProto == Some("https")
    ensures c.options.secure.Some?
  {
    SetCookie(SessionCookieName, sessionId,
              CookieOptions("/", Some(true), Some("strict"), Some(forwardedProto == Some("https")), Some(SessionMaxAge)))
  }

  /** The form action. `captcha` is the `success` field of Google's answer
      (`None` when it is absent), `disableRecaptcha` is `Utils.disableRecaptcha`,
      and `random` the bytes `createSession` draws its id from. The client
      address is read and logged only; it never reaches the store. The session
      is created for `user.id` (see `Db.CreateSessionFor`). */
  function Action(st: Store, db: Conn, form: Form, captcha: Option<bool>, disableRecaptcha: bool,
                  tf: SecondFactor, forwardedProto: Option<string>, random: seq<Hex.Byte>): (r: Result)
    requires FreshEntropy(st, random)
    ensures r.outcome == Failure(401, RecaptchaFailed) <==> !disableRecaptcha && captcha == Some(false)
    ensures r.outcome.Failure? ==> r.outcome.status == 401
    ensures var pass := disableRecaptcha || captcha != Some(false);
            var v := Select(st.users, CredentialsAre(form.username, form.password));
            && (pass && db.Down? ==> r.outcome == ServerError)
            && (pass && db.Up? && v.None? ==> r.outcome == Failure(401, InvalidLogin))
            && (pass && db.Up? && v.Some? && SecondFactorCheck(v.value, form.code, tf).Some? ==>
                  r.outcome == Failure(401, SecondFactorCheck(v.value, form.code, tf).value))
            && (pass && db.Up? && v.Some? && SecondFactorCheck(v.value, form.code, tf).None? ==>
                  r.outcome.Success?)
    ensures !r.outcome.Success? ==> r.store == st && r.cookies == []
    ensures r.outcome.Success? ==>
              && Select(st.users, CredentialsAre(form.username, form.password)).Some?
              && var user := Select(st.users, CredentialsAre(form.username, form.password)).value;
                 var sid := GenerateSessionId(random);
                 && SecondFactorCheck(user, form.code, tf).None?
                 && r.store.users == st.users
                 && r.store.sessions == st.sessions[sid := Some(user.id)]
                 && r.cookies == [SessionCookie(sid, forwardedProto)]
  {
    if !disableRecaptcha && captcha == Some(false) then
      Result(Failure(401, RecaptchaFailed), st, [])
    else match VerifyUserCredentials(st, db, form.username, form.password)
      case Thrown => Result(ServerError, st, [])
      case Done(None) => Result(Failure(401, InvalidLogin), st, [])
      case Done(Some(user)) =>
        var gate := SecondFactorCheck(user, form.code, tf);
        if gate.Some? then Result(Failure(401, gate.value), st, [])
        else match CreateSessionFor(st, db, random, user.id)
          case Thrown => Result(ServerError, st, [])
          case Done(c) => Result(Success, c.store, [SessionCookie(c.sessionId, forwardedProto)])
  }

  /** The reCAPTCHA verdict is consulted before anything else: a rejection
      ignores the store, its availability, the form and the second factor. */
  lemma RecaptchaDecidesFirst(st: Store, st': Store, db: Conn, db': Conn, form: Form, form': Form,
                              tf: SecondFactor, tf': SecondFactor, proto: Option<string>,
                              random: seq<Hex.Byte>, random': seq<Hex.Byte>)
    requires FreshEntropy(st, random) && FreshEntropy(st', random')
    ensures Action(st, db, form, Some(false), false, tf, proto, random).outcome
         == Action(st', db', form', Some(false), false, tf', proto, random').outcome
  {
  }

  /** Wrong credentials answer 401 "Invalid username or password." before the
      second-factor state is ever looked at. */
  lemma {:induction false} BadCredentialsIgnoreSecondFactor(st: Store, form: Form, captcha: Option<bool>,
                                                            disable: bool, tf: SecondFactor, tf': SecondFactor,
                                                            proto: Option<string>, random: seq<Hex.Byte>)
    requires FreshEntropy(st, random)
    requires disable || captcha != Some(false)
    requires forall i :: 0 <= i < |st.users| ==>
               !(form.username == Some(st.users[i].username) && form.password == Some(st.users[i].passwordHash))
    ensures Action(st, Up, form, captcha, disable, tf, proto, random)
         == Action(st, Up, form, captcha, disable, tf', proto, random)
         == Result(Failure(401, InvalidLogin), st, [])
  {
    assert Select(st.users, CredentialsAre(form.username, form.password)).None?;
  }

  /** When the user whose credentials match has no second factor, the
      submitted code changes nothing. */
  lemma {:induction false} CodeIrrelevantWithoutSecondFactor(st: Store, db: Conn, form: Form, code': Option<string>,
                                                             captcha: Option<bool>, disable: bool, tf: SecondFactor,
                                                             proto: Option<string>, random: seq<Hex.Byte>)
    requires FreshEntropy(st, random)
    requires var v := Select(st.users, CredentialsAre(form.username, form.password));
             v.None? || !tf.isEnabled(v.value.id)
    ensures Action(st, db, form, captcha, disable, tf, proto, random)
         == Action(st, db, form.(code := code'), captcha, disable, tf, proto, random)
  {
  }

  /** A successful login leaves exactly one new session, owned by the user
      whose credentials matched; it resolves to that user and the cookie
      carries its 32-digit hex id. */
  lemma {:induction false} SuccessCreatesOneSession(st: Store, db: Conn, form: Form, captcha: Option<bool>,
                                                    disable: bool, tf: SecondFactor, proto: Option<string>,
                                                    random: seq<Hex.Byte>)
    requires WellFormed(st)
    requires FreshEntropy(st, random)
    requires Action(st, db, form, captcha, disable, tf, proto, random).outcome.Success?
    ensures var r := Action(st, db, form, captcha, disable, tf, proto, random);
            var sid := r.cookies[0].value;
            && |sid| == 32 && Hex.IsLowerHex(sid)
            && sid !in st.sessions
            && |r.store.sessions| == |st.sessions| + 1
            && r.store.sessions - {sid} == st.sessions
            && Resolve(r.store, sid) == Select(st.users, CredentialsAre(form.username, form.password))
  {
    var user := Select(st.users, CredentialsAre(form.username, form.password)).value;
    var c := CreateSessionFor(st, db, random, user.id);
    CreatedSessionResolves(st, db, random, user);
  }
}
