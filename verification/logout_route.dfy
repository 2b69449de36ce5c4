/** src/routes/auth/logout/+server.js: `GET` destroys the session and clears
    the cookie. */
module LogoutRoute {
  import opened Wrappers
  import opened Db
  import opened Http
  import opened RouteGuard

  const LoggedOutLocation: string := "/?message=Logged out successfully."

  datatype Outcome =
    | HttpError(status: int, message: string)   // `throw error(status, message)`
    | Redirect(status: int, location: string)   // `throw redirect(status, location)`
    | ServerError                               // a TypeError or a rethrown store error

  datatype Result = Result(outcome: Outcome, store: Store, cookies: seq<CookieEffect>)

  function Get(st: Store, db: Conn, cookie: Option<string>): (r: Result)
    ensures r.outcome.Redirect? <==> SessionGate(st, db, cookie).Admitted?
    ensures r.outcome.Redirect? ==> && r.outcome == Redirect(302, LoggedOutLocation)
                                    && r.store.users == st.users
                                    && r.store.sessions == st.sessions - {cookie.value}
                                    && r.cookies == [DeleteCookie(SessionCookieName, "/")]
    ensures !r.outcome.Redirect? ==> r.store == st && r.cookies == []
    ensures r.outcome.HttpError? <==> !Truthy(cookie) || SessionGate(st, db, cookie).FalsyId?
    ensures r.outcome.HttpError? ==> r.outcome == HttpError(401, "Unauthorized")
  {
    match SessionGate(st, db, cookie)
    case NoCookie => Result(HttpError(401, "Unauthorized"), st, [])
    case StoreThrew => Result(ServerError, st, [])
    case NullUser => Result(ServerError, st, [])
    case FalsyId => Result(HttpError(401, "Unauthorized"), st, [])
    case Admitted(sid, _) =>
      match DestroySession(st, db, sid)
      case Thrown => Result(ServerError, st, [])
      case Done(st') => Result(Redirect(302, LoggedOutLocation), st', [DeleteCookie(SessionCookieName, "/")])
  }

  /** After a successful logout the old id resolves to no user, and the other
      sessions still resolve as before. */
  lemma LogoutRevokes(st: Store, db: Conn, cookie: Option<string>)
    requires Get(st, db, cookie).outcome.Redirect?
    ensures var r := Get(st, db, cookie);
            && Resolve(r.store, cookie.value).None?
            && forall s :: s != cookie.value ==> Resolve(r.store, s) == Resolve(st, s)
  {
  }

  /** A session whose id is unknown to the store is not destroyed: the
      handler fails on `user.id` of `null` before it deletes anything. */
  lemma UnknownSessionCrashes(st: Store, sid: SessionId)
    requires sid != "" && sid !in st.sessions
    ensures Get(st, Up, Some(sid)) == Result(ServerError, st, [])
  {
  }
}
