/** src/routes/api/auth/login/+server.js: the JSON login endpoint. */
module LoginApi {
  import opened Wrappers
  import Hex
  import opened Db
  import opened Http

  /** The address the handler hard-codes in place of the client's (line 37).
      `createSession` ignores its second argument, so it never reaches the store. */
  const FixedClientIp: string := "192.168.0.101"

  /** `body.user` of the request; its fields may be missing. */
  datatype Credentials = Credentials(username: Option<string>, password: Option<string>)

  /** A Fetch `Response`; header names are stored lower-cased, as Fetch
      `Headers` stores them. */
  datatype Response = Response(status: int, body: string, headers: map<string, string>)

  /** The second argument of `new Response(body, init)`; `None` is `init.status` left out. */
  datatype ResponseInit = ResponseInit(status: Option<int>, headers: map<string, string>)

  /** The Fetch `Response` constructor: a missing `init.status` means 200. */
  function NewResponse(body: string, init: ResponseInit): Response {
    Response(if init.status.Some? then init.status.value else 200, body, init.headers)
  }

  /** What the handler decided. */
  datatype Outcome =
    | Rejected                     // `verifyUserCredentials` answered a falsy value
    | LoggedIn(sessionId: SessionId)
    | ServerError                  // a rethrown store error, or a TypeError on a body without `user`

  datatype Result = Result(outcome: Outcome, store: Store, cookies: seq<CookieEffect>)

  /** The handler's decision and effects. A body without `user` makes
      `user_credentials.username` throw. The session is created for
      `resp_userdata.id` (see `Db.CreateSessionFor`); the cookie is set with the
      path option only. */
  function Post(st: Store, db: Conn, body: Option<Credentials>, random: seq<Hex.Byte>): (r: Result)
    requires FreshEntropy(st, random)
    ensures r.outcome.Rejected? <==>
              && body.Some? && db.Up?
              && Select(st.users, CredentialsAre(body.value.username, body.value.password)).None?
    ensures r.outcome.ServerError? <==> body.None? || db.Down?
    ensures !r.outcome.LoggedIn? ==> r.store == st && r.cookies == []
    ensures r.outcome.LoggedIn? ==>
              && Select(st.users, CredentialsAre(body.value.username, body.value.password)).Some?
              && var user := Select(st.users, CredentialsAre(body.value.username, body.value.password)).value;
                 && r.outcome.sessionId == GenerateSessionId(random)
                 && r.store.users == st.users
                 && r.store.sessions == st.sessions[r.outcome.sessionId := Some(user.id)]
                 && r.cookies == [SetCookie(SessionCookieName, r.outcome.sessionId,
                                            CookieOptions("/", None, None, None, None))]
  {
    if body.None? then Result(ServerError, st, [])
    else match VerifyUserCredentials(st, db, body.value.username, body.value.password)
      case Thrown => Result(ServerError, st, [])
      case Done(None) => Result(Rejected, st, [])
      case Done(Some(user)) =>
        match CreateSessionFor(st, db, random, user.id)
        case Thrown => Result(ServerError, st, [])
        case Done(c) =>
          Result(LoggedIn(c.sessionId), c.store,
                 [SetCookie(SessionCookieName, c.sessionId, CookieOptions("/", None, None, None, None))])
  }

  const RejectionHeaders: map<string, string> := map["status" := "401", "message" := "Invalid Username or Password"]

  /** The rejection as lines 26-31 write it: 401 lands in the body and in a
      header named `status`, and the init object carries no `status`. */
  function RejectionAsWritten(): Response {
    NewResponse("401", ResponseInit(None, RejectionHeaders))
  }

  /** The rejection the handler evidently intends: HTTP status 401. */
  function RejectionIntended(): Response {
    NewResponse("401", ResponseInit(Some(401), RejectionHeaders))
  }

  /** The success response of lines 46-51: body "200", a JSON content type and
      the session id in a `session-id` header. */
  function Accepted(sessionId: SessionId): Response {
    NewResponse("200", ResponseInit(None, map["content-type" := "application/json", "session-id" := sessionId]))
  }

  /** The response SvelteKit sends for an uncaught exception; its body is not modelled. */
  const InternalError: Response := Response(500, "", map[])

  /** The response the handler sends for its decision, as written. */
  function Reply(o: Outcome): (r: Response)
    ensures o.LoggedIn? ==> "session-id" in r.headers && r.headers["session-id"] == o.sessionId
  {
    match o
    case Rejected => RejectionAsWritten()
    case LoggedIn(sid) => Accepted(sid)
    case ServerError => InternalError
  }

  /** The response with the rejection status the handler evidently intends. */
  function ReplyIntended(o: Outcome): (r: Response)
    ensures o.LoggedIn? ==> "session-id" in r.headers && r.headers["session-id"] == o.sessionId
  {
    if o.Rejected? then RejectionIntended() else Reply(o)
  }

  /** As written, a rejected login and a successful one both answer HTTP status
      200: the status does not tell a client that its credentials were wrong. */
  lemma RejectionAnswers200(st: Store, body: Credentials, random: seq<Hex.Byte>)
    requires FreshEntropy(st, random)
    requires Select(st.users, CredentialsAre(body.username, body.password)).None?
    ensures var r := Post(st, Up, Some(body), random);
            && r.outcome.Rejected?
            && Reply(r.outcome).status == 200
            && Reply(r.outcome).body == "401"
  {
  }

  /** With the intended response the status separates the three decisions:
      401 exactly for bad credentials, 200 exactly for a login. */
  lemma IntendedStatusSeparates(o: Outcome)
    ensures ReplyIntended(o).status == 401 <==> o.Rejected?
    ensures ReplyIntended(o).status == 200 <==> o.LoggedIn?
  {
  }

  /** The `session-id` header of a successful login equals the cookie value,
      and the new session resolves to the user whose credentials matched. */
  lemma {:induction false} SuccessHeaderMatchesCookie(st: Store, body: Credentials, random: seq<Hex.Byte>)
    requires WellFormed(st)
    requires FreshEntropy(st, random)
    requires Select(st.users, CredentialsAre(body.username, body.password)).Some?
    ensures var r := Post(st, Up, Some(body), random);
            && r.outcome.LoggedIn?
            && Reply(r.outcome).headers["session-id"] == r.cookies[0].value
            && |r.store.sessions| == |st.sessions| + 1
            && Resolve(r.store, r.outcome.sessionId) == Select(st.users, CredentialsAre(body.username, body.password))
  {
    var user := Select(st.users, CredentialsAre(body.username, body.password)).value;
    CreatedSessionResolves(st, Up, random, user);
  }
}
